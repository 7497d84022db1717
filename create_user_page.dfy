/**
 * `pages/admin/CreateUserPage.tsx`: loading the roles to choose from, the
 * default choice, the form's rules and when it may be submitted.
 */
module CreateUserPage {
  import opened Wrappers
  import opened Text
  import opened FormRules
  import opened PageErrors

  /** A role as listed by `GET /roles`. */
  datatype RoleOption = RoleOption(id: int, name: string)

  /** `roles.find(r => r.name === 'USER')`: the index of the first such role. */
  function FindUserRole(roles: seq<RoleOption>): (r: Option<nat>)
    ensures r.None? ==> forall i | 0 <= i < |roles| :: roles[i].name != "USER"
    ensures r.Some? ==>
      && r.value < |roles| && roles[r.value].name == "USER"
      && forall i | 0 <= i < r.value :: roles[i].name != "USER"
  {
    if roles == [] then None
    else if roles[0].name == "USER" then Some(0)
    else match FindUserRole(roles[1..])
      case None => None
      case Some(k) => Some(k + 1)
  }

  /** The role picked in advance: the first named USER, else the first listed; none for an empty list. */
  function DefaultRoleId(roles: seq<RoleOption>): (r: Option<int>)
    ensures r.None? <==> roles == []
    ensures r.Some? ==> exists i | 0 <= i < |roles| :: roles[i].id == r.value
  {
    if roles == [] then None
    else match FindUserRole(roles)
      case Some(i) => Some(roles[i].id)
      case None => Some(roles[0].id)
  }

  /** The USER role is preferred wherever it stands in the list. */
  lemma DefaultPrefersUser(roles: seq<RoleOption>, i: nat)
    requires i < |roles| && roles[i].name == "USER"
    requires forall k | 0 <= k < i :: roles[k].name != "USER"
    ensures DefaultRoleId(roles) == Some(roles[i].id)
  {
    var f := FindUserRole(roles);
    assert f.Some?;
    assert f.value == i;
  }

  /** Without a USER role the first role is chosen. */
  lemma DefaultFallsBackToFirst(roles: seq<RoleOption>)
    requires roles != [] && forall k | 0 <= k < |roles| :: roles[k].name != "USER"
    ensures DefaultRoleId(roles) == Some(roles[0].id)
  {
  }

  const RolesLoadFailed := "Failed to load roles. Cannot create user."

  class CreateUserState {
    var roles: seq<RoleOption>
    var rolesLoading: bool
    var rolesError: Option<string>
    /** The form's `roleId` value. */
    var roleId: Option<int>

    constructor ()
      ensures roles == [] && rolesLoading && rolesError == None && roleId == None
    {
      roles := [];
      rolesLoading := true;
      rolesError := None;
      roleId := None;
    }

    /** The submit button's `disabled` condition, negated. */
    function SubmitEnabled(isSubmitting: bool): (r: bool)
      reads this
      ensures r <==> !isSubmitting && !rolesLoading && rolesError.None?
    {
      !(isSubmitting || rolesLoading || rolesError.Some?)
    }

    /** The start of `fetchRoles`: loading, no error. */
    method StartFetch()
      modifies this`rolesLoading, this`rolesError
      ensures rolesLoading && rolesError == None
    {
      rolesLoading := true;
      rolesError := None;
    }

    /**
     * The end of `fetchRoles`: a response gives its list (or none for an
     * empty body) and, for a non-empty list, the default choice; a failure
     * empties the list and sets the error. Loading ends either way.
     */
    method FetchSettled(outcome: Result<Option<seq<RoleOption>>, Caught>)
      modifies this`roles, this`rolesLoading, this`rolesError, this`roleId
      ensures !rolesLoading
      ensures outcome.Success? ==>
        && roles == (if outcome.value.Some? then outcome.value.value else [])
        && rolesError == old(rolesError)
        && roleId == (if roles != [] then DefaultRoleId(roles) else old(roleId))
      ensures outcome.Failure? ==> roles == [] && rolesError == Some(RolesLoadFailed) && roleId == old(roleId)
      ensures outcome.Failure? ==> forall b :: !SubmitEnabled(b)
    {
      match outcome {
        case Success(data) =>
          var fetched := if data.Some? then data.value else [];
          roles := fetched;
          if |fetched| > 0 {
            roleId := DefaultRoleId(fetched);
          }
        case Failure(_) =>
          rolesError := Some(RolesLoadFailed);
          roles := [];
      }
      rolesLoading := false;
    }
  }

  datatype UserForm = UserForm(fullName: string, email: string, password: string, roleId: Option<int>)

  datatype FormErrors = FormErrors(
    fullName: Option<string>, email: Option<string>, password: Option<string>, roleId: Option<string>)

  function Validate(f: UserForm): (r: FormErrors)
    ensures r.fullName == FieldError(f.fullName, "Full Name is required", None)
    ensures r.email == EmailError(f.email) && r.password == PasswordError(f.password)
    ensures r.roleId.Some? <==> f.roleId.None?
  {
    FormErrors(FieldError(f.fullName, "Full Name is required", None), EmailError(f.email), PasswordError(f.password),
               if f.roleId.None? then Some("Role is required") else None)
  }

  /** The form passes exactly with a name, a valid email, a six-character password and a role. */
  lemma ValidatesExactly(f: UserForm)
    ensures (Validate(f) == FormErrors(None, None, None, None)) <==>
      f.fullName != "" && EmailPattern(f.email) && |f.password| >= 6 && f.roleId.Some?
  {
  }

  /** The error shown when creation fails: message, error, the Axios message. */
  function CreateUserErrorText(c: Caught): (r: string)
    ensures c.AxiosFailure? ==> r == OrElse(ServerText(c.data), c.message)
    ensures c.PlainError? ==> r == c.message
    ensures c.OtherThrown? ==> r == "Failed to create user."
  {
    ErrorThenMessage(c, "Failed to create user.")
  }
}
