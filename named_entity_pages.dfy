/**
 * The four pages that create or rename a resource or an action
 * (`CreateResourcePage.tsx`, `CreateActionPage.tsx`, `EditResourcePage.tsx`,
 * `EditActionPage.tsx`). Each pair differs only in its texts, its path and
 * its name pattern, so `Kind` selects between them.
 */
module NamedEntityPages {
  import opened Wrappers
  import opened Text
  import opened FormRules
  import opened PageErrors

  datatype Kind = ResourceKind | ActionKind

  function Label(k: Kind): string {
    match k
    case ResourceKind => "Resource"
    case ActionKind => "Action"
  }

  function LowerLabel(k: Kind): string {
    match k
    case ResourceKind => "resource"
    case ActionKind => "action"
  }

  /** The API path of the collection. */
  function Path(k: Kind): string {
    match k
    case ResourceKind => "/resources"
    case ActionKind => "/actions"
  }

  /** The list page the edit pages return to. */
  function ListPage(k: Kind): string {
    match k
    case ResourceKind => "/admin/resources"
    case ActionKind => "/admin/actions"
  }

  /** Whether `c` may appear in a name: `[a-zA-Z0-9_-]` for resources, `[A-Z_]` for actions. */
  predicate NameChar(k: Kind, c: char) {
    match k
    case ResourceKind => ResourceNameChar(c)
    case ActionKind => ActionNameChar(c)
  }

  function PatternMessage(k: Kind): string {
    match k
    case ResourceKind => "Resource name can only contain letters, numbers, underscores, and hyphens."
    case ActionKind => "Action name must be uppercase letters and underscores only."
  }

  /** The name field's rules, the same on the create and the edit page: `required`, then the pattern. */
  function NameError(k: Kind, v: string): (r: Option<string>)
    ensures r.None? <==> v != [] && forall i | 0 <= i < |v| :: NameChar(k, v[i])
    ensures v == "" ==> r == Some(Label(k) + " name is required")
    ensures v != "" && r.Some? ==> r == Some(PatternMessage(k))
  {
    FieldError(v, Label(k) + " name is required",
               if forall i | 0 <= i < |v| :: NameChar(k, v[i]) then None else Some(PatternMessage(k)))
  }

  /** A lower-case letter anywhere makes an action name invalid; a resource name allows it. */
  lemma ActionNameRejectsLowercase(v: string, i: int)
    requires 0 <= i < |v| && IsAsciiLower(v[i])
    ensures NameError(ActionKind, v) == Some(PatternMessage(ActionKind))
  {
  }

  /** What a submit does. */
  datatype Effect =
    | ShowError(message: string)
    | Post(path: string, body: string)
    | Put(path: string, body: string)
    | NoChanges(navigateTo: string)

  /** The create pages' `onSubmit`: the trimmed name, unless it is empty, goes out as a text/plain body. */
  function CreateSubmit(k: Kind, input: string): (r: Effect)
    ensures Trim(input) == [] ==> r == ShowError(Label(k) + " name cannot be empty.")
    ensures Trim(input) != [] ==> r == Post(Path(k), Trim(input))
  {
    var name := Trim(input);
    if name == [] then ShowError(Label(k) + " name cannot be empty.") else Post(Path(k), name)
  }

  /** A name the field accepts is sent unchanged, so the empty-name guard never fires after validation. */
  lemma ValidatedCreateSendsInput(k: Kind, input: string)
    requires NameError(k, input).None?
    ensures CreateSubmit(k, input) == Post(Path(k), input)
  {
    NameCharsAreNoSpaces();
    match k
    case ResourceKind => PatternNameTrimmed(input, ResourceNameChar);
    case ActionKind => PatternNameTrimmed(input, ActionNameChar);
  }

  /** The fallback text of a failed create. */
  function CreateDefault(k: Kind): string {
    "Failed to create " + LowerLabel(k) + "."
  }

  /** The fallback text is never mistaken for an "already exists" error. */
  lemma CreateDefaultIsNoConflict(k: Kind)
    ensures !Includes(Lower(CreateDefault(k)), "already exists")
  {
    var d := CreateDefault(k);
    assert forall i | 0 <= i < |d| :: d[i] != 'y' && d[i] != 'Y';
    MissingCharExcludes(Lower(d), "already exists", 6);
  }

  /** The "already exists" message of a create page. */
  function ConflictText(k: Kind, name: string): string {
    Label(k) + " name \"" + name + "\" already exists. Please choose a different name."
  }

  /**
   * The error shown after a failed create: the server's text, else the
   * error's own message, else the fallback; any of these that holds
   * "already exists" in some casing is replaced by a message naming the input.
   */
  function CreateErrorText(k: Kind, c: Caught, name: string): (r: string)
    ensures var m := ErrorThenMessage(c, CreateDefault(k));
      Includes(Lower(m), "already exists") ==> r == ConflictText(k, name)
    ensures c.AxiosFailure? && Truthy(ServerText(c.data)) && !Includes(Lower(ServerText(c.data).value), "already exists") ==>
      r == ServerText(c.data).value
    ensures c.AxiosFailure? && !Truthy(ServerText(c.data)) && !Includes(Lower(c.message), "already exists") ==>
      r == c.message
    ensures c.PlainError? && !Includes(Lower(c.message), "already exists") ==> r == c.message
    ensures c.OtherThrown? ==> r == CreateDefault(k)
  {
    CreateDefaultIsNoConflict(k);
    AlreadyExistsText(ErrorThenMessage(c, CreateDefault(k)), Label(k), name)
  }

  /**
   * The edit pages' `onSubmit`, guard by guard: a missing id, then an
   * empty trimmed name, then a trimmed name equal to the loaded one; only
   * past all three does a PUT with the trimmed name go out.
   */
  function EditSubmit(k: Kind, id: Option<string>, current: Option<string>, input: string): (r: Effect)
    ensures !Truthy(id) ==> r == ShowError(Label(k) + " ID is missing.")
    ensures Truthy(id) && Trim(input) == [] ==> r == ShowError(Label(k) + " name cannot be empty.")
    ensures Truthy(id) && Trim(input) != [] && current == Some(Trim(input)) ==> r == NoChanges(ListPage(k))
    ensures Truthy(id) && Trim(input) != [] && current != Some(Trim(input)) ==>
      r == Put(Path(k) + "/" + id.value, Trim(input))
  {
    if !Truthy(id) then ShowError(Label(k) + " ID is missing.")
    else
      var name := Trim(input);
      if name == [] then ShowError(Label(k) + " name cannot be empty.")
      else if current == Some(name) then NoChanges(ListPage(k))
      else Put(Path(k) + "/" + id.value, name)
  }

  /** A request goes out iff the id is present, the trimmed name is not empty and it differs from the current one. */
  lemma EditSendsOnlyChanges(k: Kind, id: Option<string>, current: Option<string>, input: string)
    ensures EditSubmit(k, id, current, input).Put? <==> Truthy(id) && Trim(input) != [] && current != Some(Trim(input))
    ensures EditSubmit(k, id, current, input).Put? ==> EditSubmit(k, id, current, input).body == Trim(input)
    ensures !EditSubmit(k, id, current, input).Put? ==> !EditSubmit(k, id, current, input).Post?
  {
  }

  /** Resubmitting the name the page shows never sends a request. */
  lemma EditUnchangedNameNoRequest(k: Kind, id: Option<string>, current: string)
    requires NameError(k, current).None?
    ensures !EditSubmit(k, id, Some(current), current).Put?
  {
    ValidatedCreateSendsInput(k, current);
  }

  /** The error shown after a failed rename: message, error, the default; the Axios message is never used. */
  function EditErrorText(k: Kind, c: Caught): (r: string)
    ensures c.AxiosFailure? ==> r == OrElse(ServerText(c.data), "Failed to update " + LowerLabel(k) + " name.")
    ensures c.PlainError? ==> r == c.message
    ensures c.OtherThrown? ==> r == "Failed to update " + LowerLabel(k) + " name."
  {
    ErrorThenDefault(c, "Failed to update " + LowerLabel(k) + " name.")
  }

  /** The rename error never shows the Axios message when the server sent nothing. */
  lemma EditErrorIgnoresAxiosMessage(k: Kind, m1: string, m2: string)
    ensures EditErrorText(k, AxiosFailure(None, m1)) == EditErrorText(k, AxiosFailure(None, m2))
  {
  }
}
