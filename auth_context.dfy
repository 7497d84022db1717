/**
 * `context/AuthContext.tsx`: the session state the frontend keeps. The
 * token lives in React state and in `localStorage`; the user's name, roles
 * and permissions are read from the token's payload as `jwt-decode`
 * returns it, without checking the signature or the expiry.
 */
module AuthContext {
  import opened Wrappers
  import opened Text
  import opened Browser
  import JwtService

  /** A payload claim as the code tests it with `Array.isArray`. */
  datatype ClaimValue = Missing | StringArray(items: seq<string>) | NotAnArray

  /** The payload fields the context reads. */
  datatype DecodedToken = DecodedToken(sub: Option<string>, roles: ClaimValue, authorities: ClaimValue, permissions: ClaimValue)

  datatype UserDetails = UserDetails(username: Option<string>, roles: seq<string>, permissions: seq<string>)

  /** The details of nobody: no name, no roles, no permissions. */
  const Cleared := UserDetails(None, [], [])

  /** The roles: the `roles` claim if it is an array, even an empty one; else `authorities`; else none. */
  function RolesOf(d: DecodedToken): (r: seq<string>)
    ensures d.roles.StringArray? ==> r == d.roles.items
    ensures !d.roles.StringArray? && d.authorities.StringArray? ==> r == d.authorities.items
    ensures !d.roles.StringArray? && !d.authorities.StringArray? ==> r == []
  {
    match (d.roles, d.authorities)
    case (StringArray(items), _) => items
    case (_, StringArray(items)) => items
    case _ => []
  }

  /** The permissions: the `permissions` claim if it is an array, else none. */
  function PermissionsOf(d: DecodedToken): (r: seq<string>)
    ensures d.permissions.StringArray? ==> r == d.permissions.items
    ensures !d.permissions.StringArray? ==> r == []
  {
    if d.permissions.StringArray? then d.permissions.items else []
  }

  /** The details read from a decoded payload: `sub || null`, the roles and the permissions. */
  function DetailsFrom(d: DecodedToken): (r: UserDetails)
    ensures r.username.Some? <==> Truthy(d.sub)
    ensures r.username.Some? ==> r.username == d.sub
    ensures r.roles == RolesOf(d) && r.permissions == PermissionsOf(d)
  {
    UserDetails(if Truthy(d.sub) then d.sub else None, RolesOf(d), PermissionsOf(d))
  }

  /**
   * `updateUserFromToken`'s result: a missing or empty token, and a token
   * the decoder refuses, both give the cleared details.
   */
  function DetailsForToken(token: Option<string>, decode: string -> Option<DecodedToken>): (r: UserDetails)
    ensures !Truthy(token) ==> r == Cleared
    ensures Truthy(token) && decode(token.value).None? ==> r == Cleared
    ensures Truthy(token) && decode(token.value).Some? ==> r == DetailsFrom(decode(token.value).value)
  {
    if !Truthy(token) then Cleared
    else match decode(token.value)
      case None => Cleared
      case Some(d) => DetailsFrom(d)
  }

  /** An empty `roles` array wins over any `authorities` claim. */
  lemma EmptyRolesWin(d: DecodedToken)
    requires d.roles == StringArray([])
    ensures DetailsFrom(d).roles == []
  {
  }

  /** The payload of a token the backend signs, as `jwt-decode` returns it. */
  function DecodedOf(c: JwtService.Claims): (r: DecodedToken)
    ensures r.sub == c.sub
    ensures r.roles.StringArray? <==> c.roles.Some?
    ensures c.roles.Some? ==> r.roles.items == c.roles.value
    ensures r.authorities == Missing && r.permissions == Missing
  {
    DecodedToken(c.sub, if c.roles.Some? then StringArray(c.roles.value) else Missing, Missing, Missing)
  }

  /**
   * An access token from the backend gives the user's "ROLE_" authorities
   * as roles, the username when it is not empty, and no permissions at all:
   * the backend signs no `permissions` claim.
   */
  lemma AccessTokenDetails(authorities: seq<string>, username: string, cfg: JwtService.JwtConfig, nowMs: int)
    ensures DetailsFrom(DecodedOf(JwtService.GenerateToken(authorities, username, cfg, nowMs).claims))
         == UserDetails(if username != "" then Some(username) else None, JwtService.RolesClaim(authorities), [])
  {
  }

  /** A refresh token carries no roles claim, so it gives no roles. */
  lemma RefreshTokenDetails(username: string, cfg: JwtService.JwtConfig, nowMs: int)
    ensures DetailsFrom(DecodedOf(JwtService.GenerateRefreshToken(username, cfg, nowMs).claims)).roles == []
  {
  }

  /** The keys of the value object the provider publishes to its consumers. */
  const ContextValueKeys: set<string> :=
    {"token", "isAuthenticated", "login", "logout", "isLoading", "username", "roles", "permissions"}

  /** The value object itself, without the two callbacks. */
  datatype ContextValue = ContextValue(
    token: Option<string>, isAuthenticated: bool, isLoading: bool,
    username: Option<string>, roles: seq<string>, permissions: seq<string>)

  /** A stored token as the session sees it: an empty string counts as none. */
  function Normal(t: Option<string>): (r: Option<string>)
    ensures r.Some? <==> Truthy(t)
    ensures r.Some? ==> r == t
  {
    if Truthy(t) then t else None
  }

  /** The stored token, if any. */
  function StoredToken(items: map<string, string>): Option<string> {
    if AuthTokenKey in items then Some(items[AuthTokenKey]) else None
  }

  class AuthProvider {
    var token: Option<string>
    var details: UserDetails
    var isLoading: bool
    /** `jwtDecode`: `None` when it throws. */
    const decode: string -> Option<DecodedToken>

    /** The first render: no token, cleared details, still loading. */
    constructor (decode: string -> Option<DecodedToken>)
      ensures token == None && details == Cleared && isLoading
      ensures this.decode == decode
    {
      token := None;
      details := Cleared;
      isLoading := true;
      this.decode := decode;
    }

    /** `isAuthenticated = !!token`: a non-empty token, whether or not it decodes. */
    function IsAuthenticated(): (r: bool)
      reads this
      ensures r <==> Normal(token).Some?
    {
      Truthy(token)
    }

    /** The context value built from the state (lines publishing `userDetails` fields one by one). */
    function Value(): (r: ContextValue)
      reads this
      ensures r.isAuthenticated == IsAuthenticated() && r.token == token && r.isLoading == isLoading
      ensures r.username == details.username && r.roles == details.roles && r.permissions == details.permissions
    {
      ContextValue(token, Truthy(token), isLoading, details.username, details.roles, details.permissions)
    }

    /** The token the context holds agrees with the one in storage (empty strings counting as none). */
    predicate InSync(storage: LocalStorage)
      reads this, storage
    {
      Normal(token) == Normal(StoredToken(storage.items))
    }

    /** `updateUserFromToken`: the details become those the token gives. */
    method UpdateUserFromToken(current: Option<string>)
      modifies this`details
      ensures details == DetailsForToken(current, decode)
    {
      if Truthy(current) {
        match decode(current.value)
        case Some(d) =>
          details := DetailsFrom(d);
        case None =>
          details := UserDetails(None, [], []);
      } else {
        details := UserDetails(None, [], []);
      }
    }

    /**
     * The initial-load effect: a non-empty stored token becomes the state's
     * token and gives the details; anything else, including storage that
     * throws, leaves token and details alone. Loading always ends.
     */
    method InitialLoad(storage: LocalStorage)
      modifies this`token, this`details, this`isLoading
      ensures !isLoading
      ensures storage.accessible && Truthy(StoredToken(storage.items)) ==>
        token == StoredToken(storage.items) && details == DetailsForToken(token, decode)
      ensures !(storage.accessible && Truthy(StoredToken(storage.items))) ==>
        token == old(token) && details == old(details)
      ensures storage.accessible && old(token) == None ==> InSync(storage)
    {
      var stored := storage.GetItem(AuthTokenKey);
      if stored.Success? && Truthy(stored.value) {
        token := stored.value;
        UpdateUserFromToken(stored.value);
      }
      isLoading := false;
    }

    /**
     * `login`: the token is written to storage first; only if that succeeds
     * do the state's token and details change.
     */
    method Login(storage: LocalStorage, newToken: string)
      modifies this`token, this`details, storage`items
      ensures storage.items == if storage.accessible then old(storage.items)[AuthTokenKey := newToken] else old(storage.items)
      ensures storage.accessible ==> token == Some(newToken) && details == DetailsForToken(Some(newToken), decode)
      ensures !storage.accessible ==> token == old(token) && details == old(details)
      ensures isLoading == old(isLoading)
      ensures storage.accessible ==> InSync(storage)
    {
      var ok := storage.SetItem(AuthTokenKey, newToken);
      if ok {
        token := Some(newToken);
        UpdateUserFromToken(Some(newToken));
      }
    }

    /** `logout`: removes the stored token, then clears token and details. */
    method Logout(storage: LocalStorage)
      modifies this`token, this`details, storage`items
      ensures storage.items == if storage.accessible then old(storage.items) - {AuthTokenKey} else old(storage.items)
      ensures storage.accessible ==> token == None && details == Cleared
      ensures !storage.accessible ==> token == old(token) && details == old(details)
      ensures isLoading == old(isLoading)
      ensures storage.accessible ==> InSync(storage)
    {
      var ok := storage.RemoveItem(AuthTokenKey);
      if ok {
        token := None;
        UpdateUserFromToken(None);
      }
    }
  }

  /**
   * A 401 removes the stored token behind the context's back: a session
   * that held a token is no longer in agreement with storage.
   */
  lemma UnauthorizedLeavesContextStale(token: Option<string>, items: map<string, string>)
    requires Truthy(token)
    ensures Normal(token) != Normal(StoredToken(items - {AuthTokenKey}))
  {
  }
}
