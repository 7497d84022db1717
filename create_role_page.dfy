/** `pages/admin/CreateRolePage.tsx`: the role-name rule, its normalisation and the error shown. */
module CreateRolePage {
  import opened Wrappers
  import opened Text
  import opened FormRules
  import opened PageErrors

  const NameRequired := "Role name is required"
  const NamePattern := "Role name can only contain letters and underscores."

  /** `required`, then `^[a-zA-Z_]+$`. */
  function RoleNameError(v: string): (r: Option<string>)
    ensures r.None? <==> MatchesAll(v, RoleNameChar)
    ensures v == "" ==> r == Some(NameRequired)
    ensures v != "" && !MatchesAll(v, RoleNameChar) ==> r == Some(NamePattern)
  {
    FieldError(v, NameRequired, if MatchesAll(v, RoleNameChar) then None else Some(NamePattern))
  }

  /** `name.trim().toUpperCase()`. */
  function Normalize(name: string): (r: string)
    ensures |r| <= |name|
  {
    Upper(Trim(name))
  }

  /** Normalising a normalised name changes nothing. */
  lemma NormalizeIdempotent(name: string)
    ensures Normalize(Normalize(name)) == Normalize(name)
  {
    var t := Trim(name);
    TrimUpperCommute(t);
    TrimIdempotent(name);
    UpperIdempotent(t);
  }

  /** A name the pattern accepts has nothing to trim, so what is sent is its upper case. */
  lemma ValidNameSentUpper(name: string)
    requires RoleNameError(name).None?
    ensures Normalize(name) == Upper(name)
    ensures MatchesAll(Normalize(name), RoleNameChar)
    ensures forall i | 0 <= i < |Normalize(name)| :: !IsAsciiLower(Normalize(name)[i])
  {
    NameCharsAreNoSpaces();
    PatternNameTrimmed(name, RoleNameChar);
  }

  /** The body of `POST /roles`. */
  datatype RolePayload = RolePayload(name: string, description: string)

  /** `handleSubmit(onSubmit)`: a name error stops it; otherwise the normalised name and trimmed description go out. */
  function Submit(name: string, description: string): (r: Result<RolePayload, string>)
    ensures r.Failure? <==> RoleNameError(name).Some?
    ensures r.Failure? ==> r.error == RoleNameError(name).value
    ensures r.Success? ==> r.value == RolePayload(Upper(name), Trim(description))
  {
    if RoleNameError(name).Some? then Failure(RoleNameError(name).value)
    else
      ValidNameSentUpper(name);
      Success(RolePayload(Normalize(name), Trim(description)))
  }

  /** The error shown: the role's "already exists" message, or the text picked from the error. */
  function CreateRoleErrorText(c: Caught, roleName: string): (r: string)
    ensures var m := ErrorThenMessage(c, "Failed to create role.");
      r == if Includes(Lower(m), "already exists") then
        "Role name \"" + roleName + "\" already exists. Please choose a different name."
      else m
  {
    AlreadyExistsText(ErrorThenMessage(c, "Failed to create role."), "Role", roleName)
  }
}
