/**
 * The validation rules the frontend forms register with react-hook-form:
 * `required` (an empty value fails), `minLength`, and regular-expression
 * `pattern`s, checked in that order, the first failure giving the field's
 * message. Also the "already exists" rewording the create pages apply to
 * server errors.
 */
module FormRules {
  import opened Wrappers
  import opened Text

  /** `required`, then an optional further rule: the first failing rule's message. */
  function FieldError(value: string, requiredMessage: string, rest: Option<string>): (r: Option<string>)
    ensures value == "" ==> r == Some(requiredMessage)
    ensures value != "" ==> r == rest
  {
    if value == "" then Some(requiredMessage) else rest
  }

  /** The first index of `c` in `s`. */
  function IndexOf(s: string, c: char): (r: Option<nat>)
    ensures r.None? ==> forall k | 0 <= k < |s| :: s[k] != c
    ensures r.Some? ==> r.value < |s| && s[r.value] == c && forall k | 0 <= k < r.value :: s[k] != c
  {
    if s == [] then None
    else if s[0] == c then Some(0)
    else match IndexOf(s[1..], c)
      case None => None
      case Some(k) => Some(k + 1)
  }

  /** The last index of `c` in `s`. */
  function LastIndexOf(s: string, c: char): (r: Option<nat>)
    ensures r.None? ==> forall k | 0 <= k < |s| :: s[k] != c
    ensures r.Some? ==> r.value < |s| && s[r.value] == c && forall k | r.value < k < |s| :: s[k] != c
  {
    if s == [] then None
    else if s[|s| - 1] == c then Some(|s| - 1)
    else LastIndexOf(s[..|s| - 1], c)
  }

  /** `[A-Z0-9._%+-]` under the `i` flag. */
  predicate LocalChar(c: char) {
    IsAsciiLetter(c) || IsAsciiDigit(c) || c == '.' || c == '_' || c == '%' || c == '+' || c == '-'
  }

  /** `[A-Z0-9.-]` under the `i` flag. */
  predicate DomainChar(c: char) {
    IsAsciiLetter(c) || IsAsciiDigit(c) || c == '.' || c == '-'
  }

  /** The pieces of `s` split at `i` ('@') and `j` ('.') fit the email expression. */
  predicate EmailSplit(s: string, i: int, j: int) {
    && 0 < i && i + 1 < j && j + 2 < |s|
    && s[i] == '@' && s[j] == '.'
    && (forall k | 0 <= k < i :: LocalChar(s[k]))
    && (forall k | i < k < j :: DomainChar(s[k]))
    && (forall k | j < k < |s| :: IsAsciiLetter(s[k]))
  }

  /**
   * `/^[A-Z0-9._%+-]+@[A-Z0-9.-]+\.[A-Z]{2,}$/i` as the regular expression
   * reads: some split into a non-empty local part, '@', a non-empty domain,
   * '.', and two or more letters.
   */
  ghost predicate EmailPattern(s: string) {
    exists i, j | 0 <= i < j < |s| :: EmailSplit(s, i, j)
  }

  /** A decision procedure for the pattern: split at the first '@' and the last '.'. */
  predicate IsEmail(s: string) {
    match (IndexOf(s, '@'), LastIndexOf(s, '.'))
    case (Some(i), Some(j)) => EmailSplit(s, i, j)
    case _ => false
  }

  /**
   * The procedure decides the pattern. No part may hold '@', so a match
   * has one '@'; the final letters hold no '.', so it splits at the last '.'.
   */
  lemma IsEmailDecidesPattern(s: string)
    ensures IsEmail(s) <==> EmailPattern(s)
  {
    if EmailPattern(s) {
      var i, j :| 0 <= i < j < |s| && EmailSplit(s, i, j);
      assert forall k | 0 <= k < i :: s[k] != '@';
      assert forall k | j < k < |s| :: s[k] != '.';
      assert IndexOf(s, '@') == Some(i);
      assert LastIndexOf(s, '.') == Some(j);
    }
  }

  /** Under a split that fits the expression, the split's '@' is the only one. */
  lemma SplitHasOneAt(s: string, i: int, j: int)
    requires EmailSplit(s, i, j)
    ensures forall m | 0 <= m < |s| && m != i :: s[m] != '@'
  {
    forall m | 0 <= m < |s| && m != i ensures s[m] != '@' {
      if m < i {
        assert LocalChar(s[m]);
      } else if m < j {
        assert DomainChar(s[m]);
      } else if m > j {
        assert IsAsciiLetter(s[m]);
      }
    }
  }

  /** An email has exactly one '@'. */
  lemma EmailHasOneAt(s: string, k: int)
    requires IsEmail(s) && 0 <= k < |s| && s[k] == '@'
    ensures IndexOf(s, '@') == Some(k)
  {
    var at, dot := IndexOf(s, '@'), LastIndexOf(s, '.');
    assert at.Some? && dot.Some? && EmailSplit(s, at.value, dot.value);
    SplitHasOneAt(s, at.value, dot.value);
  }

  /** Upper-casing keeps each character class of the email expression. */
  lemma UpperKeepsEmailChars(c: char)
    ensures LocalChar(c) ==> LocalChar(UpperChar(c))
    ensures DomainChar(c) ==> DomainChar(UpperChar(c))
    ensures IsAsciiLetter(c) ==> IsAsciiLetter(UpperChar(c))
    ensures c == '@' || c == '.' ==> UpperChar(c) == c
  {
  }

  /** Case does not matter: upper-casing an address keeps it valid. */
  lemma EmailUpperValid(s: string)
    requires EmailPattern(s)
    ensures EmailPattern(Upper(s))
  {
    var i, j :| 0 <= i < j < |s| && EmailSplit(s, i, j);
    var u := Upper(s);
    forall k | 0 <= k < |s|
      ensures && (LocalChar(s[k]) ==> LocalChar(u[k]))
              && (DomainChar(s[k]) ==> DomainChar(u[k]))
              && (IsAsciiLetter(s[k]) ==> IsAsciiLetter(u[k]))
    {
      UpperKeepsEmailChars(s[k]);
    }
    UpperKeepsEmailChars(s[i]);
    UpperKeepsEmailChars(s[j]);
    assert EmailSplit(u, i, j);
  }

  const EmailRequired := "Email is required"
  const EmailInvalid := "Invalid email address"

  /** The email field of the registration and user-creation forms. */
  function EmailError(v: string): (r: Option<string>)
    ensures r.None? <==> v != "" && EmailPattern(v)
    ensures v == "" ==> r == Some(EmailRequired)
    ensures v != "" && !EmailPattern(v) ==> r == Some(EmailInvalid)
  {
    IsEmailDecidesPattern(v);
    FieldError(v, EmailRequired, if IsEmail(v) then None else Some(EmailInvalid))
  }

  const PasswordRequired := "Password is required"
  const PasswordTooShort := "Password must be at least 6 characters"

  /** The password field: required, then at least six characters. */
  function PasswordError(v: string): (r: Option<string>)
    ensures r.None? <==> |v| >= 6
    ensures v == "" ==> r == Some(PasswordRequired)
    ensures 0 < |v| < 6 ==> r == Some(PasswordTooShort)
  {
    FieldError(v, PasswordRequired, if |v| < 6 then Some(PasswordTooShort) else None)
  }

  /** A non-empty value every character of which satisfies `p` (`^[...]+$`). */
  predicate MatchesAll(s: string, p: char -> bool) {
    s != [] && AllChars(s, p)
  }

  /** `[a-zA-Z_]`: role names. */
  predicate RoleNameChar(c: char) {
    IsAsciiLetter(c) || c == '_'
  }

  /** `[a-zA-Z0-9_-]`: resource names. */
  predicate ResourceNameChar(c: char) {
    IsAsciiLetter(c) || IsAsciiDigit(c) || c == '_' || c == '-'
  }

  /** `[A-Z_]`: action names. */
  predicate ActionNameChar(c: char) {
    IsAsciiUpper(c) || c == '_'
  }

  /** A name made of characters that are no spaces is its own trim. */
  lemma PatternNameTrimmed(s: string, p: char -> bool)
    requires MatchesAll(s, p)
    requires forall c :: p(c) ==> !IsJsSpace(c)
    ensures Trim(s) == s && Trim(s) != []
  {
    assert p(s[0]) && p(s[|s| - 1]);
    TrimOfTrimmed(s);
  }

  /** None of the three name character classes holds a space. */
  lemma NameCharsAreNoSpaces()
    ensures forall c :: RoleNameChar(c) ==> !IsJsSpace(c)
    ensures forall c :: ResourceNameChar(c) ==> !IsJsSpace(c)
    ensures forall c :: ActionNameChar(c) ==> !IsJsSpace(c)
  {
  }

  /** Every action name is a role-name-shaped, resource-name-shaped string too. */
  lemma ActionNamesAreResourceShaped(s: string)
    requires MatchesAll(s, ActionNameChar)
    ensures MatchesAll(s, ResourceNameChar) && MatchesAll(s, RoleNameChar)
  {
  }

  /**
   * `errorMessage.toLowerCase().includes('already exists')`: such a server
   * error is replaced by a message naming what was submitted; any other is
   * shown as it came.
   */
  function AlreadyExistsText(errorMessage: string, kind: string, name: string): (r: string)
    ensures Includes(Lower(errorMessage), "already exists") ==>
      r == kind + " name \"" + name + "\" already exists. Please choose a different name."
    ensures !Includes(Lower(errorMessage), "already exists") ==> r == errorMessage
  {
    if Includes(Lower(errorMessage), "already exists") then
      kind + " name \"" + name + "\" already exists. Please choose a different name."
    else errorMessage
  }

  /** Lower-casing works character by character, so it distributes over concatenation. */
  lemma LowerConcat(a: string, b: string)
    ensures Lower(a + b) == Lower(a) + Lower(b)
  {
    var l, r := Lower(a + b), Lower(a) + Lower(b);
    forall k | 0 <= k < |a + b| ensures l[k] == r[k] {
      if k < |a| {
        assert (a + b)[k] == a[k];
      } else {
        assert (a + b)[k] == b[k - |a|];
      }
    }
    assert l == r;
  }

  /** A string occurs in any string that has it in the middle. */
  lemma OccursInMiddle(p: string, x: string, q: string)
    ensures OccursAt(p + x + q, x, |p|)
  {
    assert (p + x + q)[|p|..|p| + |x|] == x;
  }

  /**
   * The test ignores case: a message holding "already exists" in any
   * casing ("ALREADY EXISTS", "Already Exists", ...) is recognised.
   */
  lemma AlreadyExistsAnyCase(prefix: string, phrase: string, suffix: string)
    requires Lower(phrase) == "already exists"
    ensures Includes(Lower(prefix + phrase + suffix), "already exists")
  {
    LowerConcat(prefix, phrase);
    LowerConcat(prefix + phrase, suffix);
    OccursInMiddle(Lower(prefix), Lower(phrase), Lower(suffix));
    assert OccursAt(Lower(prefix + phrase + suffix), "already exists", |prefix|);
  }
}
