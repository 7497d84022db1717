/** `security/UserSecurity.java`: whether the caller is the user a request names. */
module UserSecurity {
  import opened Wrappers

  /** The principal of an authentication: a `User` entity (by id) or any other object. */
  datatype Principal = UserPrincipal(id: int) | OtherPrincipal

  /** The current `Authentication`: its `isAuthenticated()` flag and its principal. */
  datatype Authentication = Authentication(authenticated: bool, principal: Principal)

  /**
   * `isCurrentUser(userId)`: false without an authentication, for an
   * unauthenticated one, and for a principal that is not a user; otherwise
   * whether the principal's id equals `userId` (false for a null id).
   */
  function IsCurrentUser(auth: Option<Authentication>, userId: Option<int>): (r: bool)
    ensures auth.None? ==> !r
    ensures auth.Some? && !auth.value.authenticated ==> !r
    ensures auth.Some? && auth.value.principal.OtherPrincipal? ==> !r
    ensures userId.None? ==> !r
    ensures r ==> auth.Some? && auth.value.principal == UserPrincipal(userId.value)
  {
    if auth.None? || !auth.value.authenticated then false
    else match auth.value.principal
      case OtherPrincipal => false
      case UserPrincipal(id) => userId == Some(id)
  }

  /** At most one user id is the current user. */
  lemma CurrentUserUnique(auth: Option<Authentication>, a: Option<int>, b: Option<int>)
    requires IsCurrentUser(auth, a) && IsCurrentUser(auth, b)
    ensures a == b
  {
  }

  /** An authenticated user is the current user for its own id and no other. */
  lemma CurrentUserIsSelf(id: int, userId: Option<int>)
    ensures IsCurrentUser(Some(Authentication(true, UserPrincipal(id))), userId) <==> userId == Some(id)
  {
  }
}
