/**
 * The persistent entities of the RBAC backend (package `models`) as values,
 * and the exceptions its services raise. Entities refer to each other by id,
 * as their join columns do; the `Store` module keeps them in maps.
 */
module Entities {
  import opened Wrappers

  /** The role names of `RoleEnum`, in declaration order. */
  datatype RoleName = ADMIN | MODERATOR | USER

  /** All role names in declaration order (`RoleEnum.values()`). */
  const AllRoleNames: seq<RoleName> := [ADMIN, MODERATOR, USER]

  /** `values()` lists every constant, each once. */
  lemma AllRoleNamesComplete(n: RoleName)
    ensures n in AllRoleNames
    ensures forall i, j | 0 <= i < j < |AllRoleNames| :: AllRoleNames[i] != AllRoleNames[j]
  {
    match n
    case ADMIN => assert AllRoleNames[0] == n;
    case MODERATOR => assert AllRoleNames[1] == n;
    case USER => assert AllRoleNames[2] == n;
  }

  /** `RoleEnum.name()`. */
  function RoleNameText(n: RoleName): (r: string)
    ensures r != []
  {
    match n
    case ADMIN => "ADMIN"
    case MODERATOR => "MODERATOR"
    case USER => "USER"
  }

  /** Distinct enum constants have distinct names. */
  lemma RoleNameTextInjective(a: RoleName, b: RoleName)
    ensures RoleNameText(a) == RoleNameText(b) ==> a == b
  {
  }

  datatype Resource = Resource(name: string, description: Option<string>)

  datatype Action = Action(name: string, description: Option<string>)

  /** A permission joins one resource and one action (by id). */
  datatype Permission = Permission(resourceId: int, actionId: int, description: Option<string>)

  /** A role: its enum name, a description and the ids of the permissions it grants. */
  datatype Role = Role(name: RoleName, description: Option<string>, permissions: set<int>)

  /** A user account; `password` holds the encoder's output, `roleId` the user's one role. */
  datatype User = User(fullName: string, email: string, password: string, roleId: int)

  /** Why the JWT parser refused a token. */
  datatype JwtFailure =
    | Malformed         // MalformedJwtException / UnsupportedJwtException
    | SignatureInvalid  // SignatureException: signed with another key
    | Expired           // ExpiredJwtException: `exp` lies before the current time
    | MissingSubject    // a null dereference on a token without `sub`

  /** The exceptions the services raise. */
  datatype Error =
    | NotFound(message: string)          // ResourceNotFoundException
    | AlreadyExists(message: string)     // ResourceAlreadyExistsException
    | UsernameNotFound(message: string)  // UsernameNotFoundException
    | BadCredentials(message: string)    // BadCredentialsException
    | NoSuchElement                      // Optional.orElseThrow() on an empty Optional
    | Runtime(message: string)           // RuntimeException
    | DataIntegrity                      // a database constraint refused the write
    | Jwt(failure: JwtFailure)           // an exception from the JWT parser
}
