/**
 * `pages/admin/EditRolePage.tsx`: the set of permissions ticked for a role,
 * how ticking and unticking one changes it, and how the permission list
 * is grouped by resource.
 */
module EditRolePage {
  import opened Wrappers
  import opened Text
  import opened PageErrors
  import NamedEntityPages

  /** A permission as the page receives it; `resource` may be absent. */
  datatype PermissionView = PermissionView(id: string, name: string, resourceName: Option<string>)

  /** The ids of a role's permissions (the initial ticked set). */
  function IdsOf(perms: seq<PermissionView>): (r: set<string>)
    ensures forall id :: id in r <==> exists i | 0 <= i < |perms| :: perms[i].id == id
  {
    set i | 0 <= i < |perms| :: perms[i].id
  }

  /**
   * The ticked set after a toggle of `id` that the server accepted or
   * refused. The request comes first; the set changes only afterwards:
   * a success adds (tick) or removes (untick) the id; a failure "reverts",
   * removing the id on a tick and adding it on an untick.
   */
  function Toggled(s: set<string>, id: string, isChecked: bool, succeeded: bool): (r: set<string>)
    ensures succeeded && isChecked ==> r == s + {id}
    ensures succeeded && !isChecked ==> r == s - {id}
    ensures !succeeded && isChecked ==> r == s - {id}
    ensures !succeeded && !isChecked ==> r == s + {id}
  {
    if succeeded == isChecked then s + {id} else s - {id}
  }

  /** After a toggle, the id is ticked iff the outcome agrees with the request. */
  lemma ToggledMembership(s: set<string>, id: string, isChecked: bool, succeeded: bool)
    ensures id in Toggled(s, id, isChecked, succeeded) <==> (succeeded <==> isChecked)
    ensures forall other | other != id :: other in Toggled(s, id, isChecked, succeeded) <==> other in s
  {
  }

  /**
   * When the box was clicked from its displayed state (ticking an unticked
   * id, or unticking a ticked one), a refused toggle leaves the set as it was.
   */
  lemma RevertRestores(s: set<string>, id: string, isChecked: bool)
    requires isChecked <==> id !in s
    ensures Toggled(s, id, isChecked, false) == s
  {
    var r := Toggled(s, id, isChecked, false);
    forall x ensures x in r <==> x in s { }
  }

  /** A refused tick of an id that was already ticked unticks it. */
  lemma RevertOfStaleTickDrops(s: set<string>, id: string)
    requires id in s
    ensures id !in Toggled(s, id, true, false) && Toggled(s, id, true, false) != s
  {
  }

  /** The error text of a refused toggle. */
  function ToggleErrorMessage(c: Caught, isChecked: bool): (r: string)
    ensures c.OtherThrown? ==> r == if isChecked then "Failed to assign permission." else "Failed to revoke permission."
    ensures !c.OtherThrown? ==> r == ErrorThenMessage(c, "")
  {
    ErrorThenMessage(c, if isChecked then "Failed to assign permission." else "Failed to revoke permission.")
  }

  class EditRoleState {
    /** The `:roleId` route parameter. */
    const roleId: Option<string>
    var ticked: set<string>
    var toggleLoading: map<string, bool>
    var apiError: Option<string>

    /** The state once the role has loaded: its permissions' ids ticked, nothing loading, no error. */
    constructor (roleId: Option<string>, rolePermissions: seq<PermissionView>)
      ensures this.roleId == roleId
      ensures ticked == IdsOf(rolePermissions)
      ensures toggleLoading == map[] && apiError == None
    {
      this.roleId := roleId;
      ticked := IdsOf(rolePermissions);
      toggleLoading := map[];
      apiError := None;
    }

    /**
     * The synchronous start of `handlePermissionChange`: without a role id
     * nothing happens; otherwise the error clears and the id shows as loading.
     */
    method BeginToggle(id: string)
      modifies this`apiError, this`toggleLoading
      ensures !Truthy(roleId) ==> apiError == old(apiError) && toggleLoading == old(toggleLoading)
      ensures Truthy(roleId) ==> apiError == None && toggleLoading == old(toggleLoading)[id := true]
    {
      if Truthy(roleId) {
        apiError := None;
        toggleLoading := toggleLoading[id := true];
      }
    }

    /**
     * The part after the request settles: the ticked set becomes `Toggled`,
     * a failure shows its text, and the id stops loading. Other ids keep
     * their tick and their loading flag.
     */
    method FinishToggle(id: string, isChecked: bool, outcome: Result<(), Caught>)
      modifies this`ticked, this`apiError, this`toggleLoading
      ensures !Truthy(roleId) ==>
        ticked == old(ticked) && apiError == old(apiError) && toggleLoading == old(toggleLoading)
      ensures Truthy(roleId) ==>
        && ticked == Toggled(old(ticked), id, isChecked, outcome.Success?)
        && toggleLoading == old(toggleLoading)[id := false]
        && apiError == (if outcome.Success? then old(apiError) else Some(ToggleErrorMessage(outcome.error, isChecked)))
    {
      if !Truthy(roleId) {
        return;
      }
      match outcome {
        case Success(_) =>
          if isChecked {
            ticked := ticked + {id};
          } else {
            ticked := ticked - {id};
          }
        case Failure(c) =>
          apiError := Some(ToggleErrorMessage(c, isChecked));
          if isChecked {
            ticked := ticked - {id};
          } else {
            ticked := ticked + {id};
          }
      }
      toggleLoading := toggleLoading[id := false];
    }

    /** One toggle with nothing interleaved: the id is ticked iff the server accepted a tick or refused an untick. */
    method HandlePermissionChange(id: string, isChecked: bool, outcome: Result<(), Caught>)
      modifies this`ticked, this`apiError, this`toggleLoading
      ensures !Truthy(roleId) ==>
        ticked == old(ticked) && apiError == old(apiError) && toggleLoading == old(toggleLoading)
      ensures Truthy(roleId) ==>
        && ticked == Toggled(old(ticked), id, isChecked, outcome.Success?)
        && toggleLoading == old(toggleLoading)[id := false]
        && apiError == (if outcome.Success? then None else Some(ToggleErrorMessage(outcome.error, isChecked)))
    {
      BeginToggle(id);
      FinishToggle(id, isChecked, outcome);
    }
  }

  /** `permission.resource?.name || 'Other'`. */
  function GroupKey(p: PermissionView): (r: string)
    ensures Truthy(p.resourceName) ==> r == p.resourceName.value
    ensures !Truthy(p.resourceName) ==> r == "Other"
  {
    OrElse(p.resourceName, "Other")
  }

  /** The keys the grouping has. */
  function GroupKeys(perms: seq<PermissionView>): set<string> {
    set i | 0 <= i < |perms| :: GroupKey(perms[i])
  }

  /** The permissions with key `k`, in input order. */
  function InGroup(perms: seq<PermissionView>, k: string): (r: seq<PermissionView>)
    ensures |r| <= |perms|
  {
    if perms == [] then []
    else InGroup(perms[..|perms| - 1], k) + (if GroupKey(perms[|perms| - 1]) == k then [perms[|perms| - 1]] else [])
  }

  /** A group holds exactly the input permissions with its key, each as often as in the input. */
  lemma {:induction false} InGroupCount(perms: seq<PermissionView>, k: string, p: PermissionView)
    ensures multiset(InGroup(perms, k))[p] == if GroupKey(p) == k then multiset(perms)[p] else 0
    decreases |perms|
  {
    if perms != [] {
      var init := perms[..|perms| - 1];
      InGroupCount(init, k, p);
      assert perms == init + [perms[|perms| - 1]];
    }
  }

  /** Grouping a concatenation groups each part, keeping their order. */
  lemma {:induction false} InGroupConcat(a: seq<PermissionView>, b: seq<PermissionView>, k: string)
    ensures InGroup(a + b, k) == InGroup(a, k) + InGroup(b, k)
    decreases |b|
  {
    if b == [] {
      assert a + b == a;
    } else {
      var init := b[..|b| - 1];
      assert (a + b)[..|a + b| - 1] == a + init;
      InGroupConcat(a, init, k);
    }
  }

  /** Each permission lands in the group of its own key and in no other. */
  lemma ExactlyOneGroup(perms: seq<PermissionView>, p: PermissionView, k: string)
    requires p in perms
    ensures p in InGroup(perms, k) <==> k == GroupKey(p)
  {
    InGroupCount(perms, k, p);
  }

  /** A key no permission has has an empty group. */
  lemma {:induction false} InGroupWithoutKey(perms: seq<PermissionView>, k: string)
    requires k !in GroupKeys(perms)
    ensures InGroup(perms, k) == []
    decreases |perms|
  {
    if perms != [] {
      var init := perms[..|perms| - 1];
      assert GroupKey(perms[|perms| - 1]) in GroupKeys(perms);
      forall x | x in GroupKeys(init) ensures x in GroupKeys(perms) {
        var j :| 0 <= j < |init| && GroupKey(init[j]) == x;
        assert perms[j] == init[j];
      }
      InGroupWithoutKey(init, k);
    }
  }

  /** The grouping of a prefix, as a map. */
  ghost predicate GroupsOf(groups: map<string, seq<PermissionView>>, perms: seq<PermissionView>) {
    groups.Keys == GroupKeys(perms) && forall k | k in groups :: groups[k] == InGroup(perms, k)
  }

  /** One step of the accumulation: pushing `p` onto its key's group (made empty first if new). */
  lemma GroupStep(before: map<string, seq<PermissionView>>, after: map<string, seq<PermissionView>>,
                  prefix: seq<PermissionView>, p: PermissionView)
    requires GroupsOf(before, prefix)
    requires after == before[GroupKey(p) := (if GroupKey(p) in before then before[GroupKey(p)] else []) + [p]]
    ensures GroupsOf(after, prefix + [p])
  {
    var next := prefix + [p];
    assert next[..|next| - 1] == prefix;
    var k := GroupKey(p);
    if k !in before {
      InGroupWithoutKey(prefix, k);
    }
    assert GroupKey(next[|prefix|]) == k;
    forall x ensures x in after.Keys <==> x in GroupKeys(next) {
      if x in GroupKeys(next) && x != k {
        var j :| 0 <= j < |next| && GroupKey(next[j]) == x;
        assert j < |prefix| && prefix[j] == next[j];
      }
      if x in before.Keys {
        var j :| 0 <= j < |prefix| && GroupKey(prefix[j]) == x;
        assert next[j] == prefix[j];
      }
    }
  }

  /**
   * `groupedPermissions` with an accumulator that has no inherited keys:
   * one group per key present, holding that key's permissions in order.
   */
  method GroupPermissions(perms: seq<PermissionView>) returns (groups: map<string, seq<PermissionView>>)
    ensures groups.Keys == GroupKeys(perms)
    ensures forall k | k in groups :: groups[k] == InGroup(perms, k)
  {
    groups := map[];
    var i := 0;
    while i < |perms|
      invariant 0 <= i <= |perms|
      invariant GroupsOf(groups, perms[..i])
    {
      var k := GroupKey(perms[i]);
      ghost var before := groups;
      if k !in groups {
        groups := groups[k := []];
      }
      groups := groups[k := groups[k] + [perms[i]]];
      GroupStep(before, groups, perms[..i], perms[i]);
      assert perms[..i + 1] == perms[..i] + [perms[i]];
      i := i + 1;
    }
    assert perms[..i] == perms;
  }

  /**
   * The names a fresh `{}` inherits from `Object.prototype`; reading any of
   * them from the accumulator gives a truthy value that is not an array.
   */
  const ObjectPrototypeKeys: set<string> := {
    "constructor", "__proto__", "toString", "toLocaleString", "valueOf", "hasOwnProperty",
    "isPrototypeOf", "propertyIsEnumerable", "__defineGetter__", "__defineSetter__",
    "__lookupGetter__", "__lookupSetter__"}

  /**
   * `groupedPermissions` as written, accumulating into `{}`: for a key
   * inherited from `Object.prototype` the `if (!acc[k])` test finds a
   * value, so no array is made, and `acc[k].push` throws a TypeError.
   */
  method GroupPermissionsAsWritten(perms: seq<PermissionView>) returns (r: Result<map<string, seq<PermissionView>>, string>)
    ensures r.Failure? <==> exists i | 0 <= i < |perms| :: GroupKey(perms[i]) in ObjectPrototypeKeys
    ensures r.Success? ==> r.value.Keys == GroupKeys(perms) && forall k | k in r.value :: r.value[k] == InGroup(perms, k)
  {
    var groups: map<string, seq<PermissionView>> := map[];
    var i := 0;
    while i < |perms|
      invariant 0 <= i <= |perms|
      invariant forall j | 0 <= j < i :: GroupKey(perms[j]) !in ObjectPrototypeKeys
      invariant GroupsOf(groups, perms[..i])
    {
      var k := GroupKey(perms[i]);
      if k in ObjectPrototypeKeys {
        assert GroupKey(perms[i]) in ObjectPrototypeKeys;
        return Failure("TypeError: acc[resourceName].push is not a function");
      }
      ghost var before := groups;
      if k !in groups {
        groups := groups[k := []];
      }
      groups := groups[k := groups[k] + [perms[i]]];
      GroupStep(before, groups, perms[..i], perms[i]);
      assert perms[..i + 1] == perms[..i] + [perms[i]];
      i := i + 1;
    }
    assert perms[..i] == perms;
    r := Success(groups);
  }

  /**
   * The grouping breaks on data the application itself accepts: the
   * resource form admits the name "constructor", and a permission on that
   * resource has a key inherited from `Object.prototype`.
   */
  lemma PrototypeNamedResourceAccepted()
    ensures NamedEntityPages.NameError(NamedEntityPages.ResourceKind, "constructor").None?
    ensures GroupKey(PermissionView("1", "constructor:READ", Some("constructor"))) in ObjectPrototypeKeys
  {
    var name := "constructor";
    assert forall i | 0 <= i < |name| :: NamedEntityPages.NameChar(NamedEntityPages.ResourceKind, name[i]);
  }
}
