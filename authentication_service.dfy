/**
 * `services/AuthenticationService.java`: sign-up, sign-in and the exchange
 * of a refresh token for a new access token. The password encoder is the
 * parameter `encode`; the authentication manager's verdict is the
 * parameter `verdict` (`None` when it accepts, otherwise the exception it raises).
 */
module AuthenticationService {
  import opened Wrappers
  import opened Text
  import opened Entities
  import opened Store
  import opened UserEntity
  import opened JwtService
  import UserService

  /** The sign-in form. */
  datatype LoginUserDto = LoginUserDto(email: string, password: string)

  /** `RefreshTokenResponse`: a new access token and its lifetime; no new refresh token. */
  datatype RefreshTokenResponse = RefreshTokenResponse(accessToken: Token, expiresIn: int)

  const DefaultRoleMissing := "Default user role not found. Database may not be properly initialized"

  /**
   * `signup`: needs the USER role; stores the user with that role, whatever
   * role the form asked for, and the encoded password. A taken email
   * violates the unique constraint and stores nothing.
   */
  method Signup(s: Store, input: UserService.RegisterUserDto, encode: string -> string) returns (r: Result<int, Error>)
    requires s.Valid()
    modifies s
    ensures s.Valid()
    ensures !old(HasRoleNamed(s.roles, USER)) ==>
      r == Failure(Runtime(DefaultRoleMissing)) && s.Snapshot() == old(s.Snapshot())
    ensures old(HasRoleNamed(s.roles, USER)) && old(HasUserWithEmail(s.users, input.email)) ==>
      r == Failure(DataIntegrity) && s.Snapshot() == old(s.Snapshot())
    ensures old(HasRoleNamed(s.roles, USER)) && !old(HasUserWithEmail(s.users, input.email)) ==>
      var roleId := old(RoleIdNamed(s.roles, USER));
      && r.Success? && r.value !in old(s.users)
      && s.Snapshot() == old(s.Snapshot()).(users :=
           old(s.users)[r.value := User(input.fullName, input.email, encode(input.password), roleId)])
  {
    if !HasRoleNamed(s.roles, USER) {
      return Failure(Runtime(DefaultRoleMissing));
    }
    var roleId :| roleId in s.roles && s.roles[roleId].name == USER;
    RoleIdNamedIs(s.roles, roleId);
    if HasUserWithEmail(s.users, input.email) {
      return Failure(DataIntegrity);
    }
    var id := s.NewId();
    s.users := s.users[id := User(input.fullName, input.email, encode(input.password), roleId)];
    r := Success(id);
  }

  /**
   * `authenticate`: once the authentication manager accepts the email and
   * password, the stored user with that email (`orElseThrow()` otherwise).
   */
  ghost function Authenticate(db: Db, input: LoginUserDto, verdict: Option<Error>): (r: Result<User, Error>)
    ensures verdict.Some? ==> r == Failure(verdict.value)
    ensures verdict.None? && !HasUserWithEmail(db.users, input.email) ==> r == Failure(NoSuchElement)
    ensures r.Success? ==> r.value.email == input.email && r.value in db.users.Values
  {
    if verdict.Some? then Failure(verdict.value)
    else if !HasUserWithEmail(db.users, input.email) then Failure(NoSuchElement)
    else Success(db.users[UserIdWithEmail(db.users, input.email)])
  }

  /** Signing in with a stored user's email, once accepted, yields that very user. */
  lemma AuthenticateFindsUser(db: Db, id: int, password: string)
    requires Consistent(db) && id in db.users
    ensures Authenticate(db, LoginUserDto(db.users[id].email, password), None) == Success(db.users[id])
  {
    UserIdWithEmailIs(db.users, id);
  }

  /** `jwtService.generateToken(user)`: the authorities streamed in the `HashSet`'s order. */
  ghost function UserToken(db: Db, u: User, cfg: JwtConfig, nowMs: int): (r: Token)
    requires u.roleId in db.roles
    ensures r.Signed? && r.key == cfg.secretKey && r.claims.sub == Some(Username(u))
    ensures r.claims.roles.Some?
    ensures forall a :: a in r.claims.roles.value <==> a in Authorities(db, u) && StartsWith(a, "ROLE_")
  {
    GenerateToken(Enumerate(Authorities(db, u)), Username(u), cfg, nowMs)
  }

  /**
   * Unless some resource name starts with "ROLE_", a user's access token
   * carries exactly one role: the user's own.
   */
  lemma UserTokenCarriesOneRole(db: Db, u: User, cfg: JwtConfig, nowMs: int)
    requires u.roleId in db.roles
    requires forall id | id in db.resources :: !StartsWith(db.resources[id].name, "ROLE_")
    ensures UserToken(db, u, cfg, nowMs).claims.roles == Some([RoleAuthority(db.roles[u.roleId].name)])
    ensures UserToken(db, u, cfg, nowMs).claims.sub == Some(u.email)
  {
    var e := Enumerate(Authorities(db, u));
    var mine := RoleAuthority(db.roles[u.roleId].name);
    RolesClaimDistinct(e);
    forall i | 0 <= i < |RolesClaim(e)| ensures RolesClaim(e)[i] == mine {
      OnlyRoleAuthorityHasRolePrefix(db, u, RolesClaim(e)[i]);
    }
    OnlyElement(RolesClaim(e), mine);
  }

  /** A list without repeats that holds `x` and nothing else is `[x]`. */
  lemma OnlyElement(r: seq<string>, x: string)
    requires forall i, j | 0 <= i < j < |r| :: r[i] != r[j]
    requires x in r && forall i | 0 <= i < |r| :: r[i] == x
    ensures r == [x]
  {
    DistinctElements(r);
    var elements := set b | b in r;
    forall a ensures a in elements <==> a in {x} { }
    assert elements == {x};
  }

  /** A list without repeats has as many distinct elements as entries. */
  lemma {:induction false} DistinctElements(r: seq<string>)
    requires forall i, j | 0 <= i < j < |r| :: r[i] != r[j]
    ensures |(set b | b in r)| == |r|
    decreases |r|
  {
    if r != [] {
      DistinctElements(r[1..]);
      assert r[0] !in r[1..];
      var elements, later := set b | b in r, set b | b in r[1..];
      forall a ensures a in elements <==> a in later + {r[0]} {
        assert a in r <==> a in r[1..] || a == r[0];
      }
      assert elements == later + {r[0]};
    }
  }

  /**
   * `refreshToken`: the subject must name a stored user; the token must then
   * pass `isTokenValid` for that user. Parser refusals propagate.
   */
  ghost function RefreshToken(db: Db, cfg: JwtConfig, token: Token, nowMs: int): (r: Result<RefreshTokenResponse, Error>)
    requires Consistent(db)
    ensures ExtractUsername(token, cfg.secretKey, nowMs).Failure? ==>
      r == Failure(Jwt(ExtractUsername(token, cfg.secretKey, nowMs).error))
    ensures (&& ExtractUsername(token, cfg.secretKey, nowMs).Success?
             && (token.claims.sub.None? || !HasUserWithEmail(db.users, token.claims.sub.value))) ==>
      r == Failure(BadCredentials("User not found for refresh token"))
    ensures r.Success? ==>
      && token.Signed? && token.claims.sub.Some? && HasUserWithEmail(db.users, token.claims.sub.value)
      && r.value == RefreshTokenResponse(
           UserToken(db, db.users[UserIdWithEmail(db.users, token.claims.sub.value)], cfg, nowMs),
           GetExpirationTime(cfg))
  {
    var username := ExtractUsername(token, cfg.secretKey, nowMs);
    if username.Failure? then Failure(Jwt(username.error))
    else if username.value.None? || !HasUserWithEmail(db.users, username.value.value) then
      Failure(BadCredentials("User not found for refresh token"))
    else
      var user := db.users[UserIdWithEmail(db.users, username.value.value)];
      match IsTokenValid(token, Username(user), cfg.secretKey, nowMs)
      case Success(valid) =>
        if valid then Success(RefreshTokenResponse(UserToken(db, user, cfg, nowMs), GetExpirationTime(cfg)))
        else Failure(BadCredentials("Invalid refresh token"))
      case Failure(e) => Failure(Jwt(e))
  }

  /**
   * As written, the "Invalid refresh token" branch is dead: the subject
   * always matches the user found by it, and an expired token has already
   * been refused by the parser.
   */
  lemma RefreshTokenNeverInvalid(db: Db, cfg: JwtConfig, token: Token, nowMs: int)
    requires Consistent(db)
    ensures RefreshToken(db, cfg, token, nowMs) != Failure(BadCredentials("Invalid refresh token"))
  {
    if ExtractUsername(token, cfg.secretKey, nowMs).Success? && token.claims.sub.Some?
       && HasUserWithEmail(db.users, token.claims.sub.value) {
      var user := db.users[UserIdWithEmail(db.users, token.claims.sub.value)];
      assert IsTokenValid(token, Username(user), cfg.secretKey, nowMs) == Success(true);
    }
  }

  /** An expired refresh token of a stored user surfaces as the parser's Expired error. */
  lemma ExpiredRefreshTokenEscapes(db: Db, cfg: JwtConfig, id: int, t0: int, later: int)
    requires Consistent(db) && id in db.users
    requires later > Seconds(t0 + cfg.refreshExpirationMs) * 1000
    ensures RefreshToken(db, cfg, GenerateRefreshToken(db.users[id].email, cfg, t0), later) == Failure(Jwt(Expired))
  {
    var t := GenerateRefreshToken(db.users[id].email, cfg, t0);
    assert t.Signed? && t.key == cfg.secretKey && ExpiredAt(t.claims, later);
    assert ExtractUsername(t, cfg.secretKey, later) == Failure(Expired);
  }

  /** A refresh token of a stored user, still in date, buys a fresh access token for that user. */
  lemma RefreshTokenRoundTrip(db: Db, cfg: JwtConfig, id: int, t0: int, later: int)
    requires Consistent(db) && id in db.users
    requires later <= Seconds(t0 + cfg.refreshExpirationMs) * 1000
    ensures RefreshToken(db, cfg, GenerateRefreshToken(Username(db.users[id]), cfg, t0), later)
         == Success(RefreshTokenResponse(UserToken(db, db.users[id], cfg, later), cfg.expirationMs))
  {
    UserIdWithEmailIs(db.users, id);
  }

  /** Nothing marks a token as a refresh token: an in-date access token is accepted too. */
  lemma AccessTokenAcceptedAsRefreshToken(db: Db, cfg: JwtConfig, id: int, t0: int, later: int)
    requires Consistent(db) && id in db.users
    requires later <= Seconds(t0 + cfg.expirationMs) * 1000
    ensures RefreshToken(db, cfg, UserToken(db, db.users[id], cfg, t0), later).Success?
  {
    var u := db.users[id];
    var t := UserToken(db, u, cfg, t0);
    assert t.Signed? && t.key == cfg.secretKey && t.claims.sub == Some(u.email);
    assert t.claims.exp == Seconds(t0 + cfg.expirationMs);
    UserIdWithEmailIs(db.users, id);
    assert IsTokenValid(t, Username(u), cfg.secretKey, later) == Success(true);
  }

  /**
   * The parse the refresh check evidently meant: signature checked, claims
   * read even when expired (as `ExpiredJwtException.getClaims()` offers).
   */
  function ParseIgnoringExpiry(t: Token, key: string): (r: Result<Claims, JwtFailure>)
    ensures r.Success? <==> t.Signed? && t.key == key
    ensures r.Success? ==> r.value == t.claims
  {
    match t
    case Unparseable(_) => Failure(Malformed)
    case Signed(c, k) => if k != key then Failure(SignatureInvalid) else Success(c)
  }

  /**
   * `refreshToken` as evidently intended: an expired refresh token of a
   * stored user is answered with BadCredentials("Invalid refresh token").
   */
  ghost function RefreshTokenChecked(db: Db, cfg: JwtConfig, token: Token, nowMs: int): (r: Result<RefreshTokenResponse, Error>)
    requires Consistent(db)
    ensures r.Success? <==>
      && token.Signed? && token.key == cfg.secretKey && token.claims.sub.Some?
      && HasUserWithEmail(db.users, token.claims.sub.value) && !ExpiredAt(token.claims, nowMs)
    ensures r.Success? ==>
      r.value.expiresIn == cfg.expirationMs && r.value.accessToken.Signed? && r.value.accessToken.claims.sub == token.claims.sub
  {
    var claims := ParseIgnoringExpiry(token, cfg.secretKey);
    if claims.Failure? then Failure(Jwt(claims.error))
    else if claims.value.sub.None? || !HasUserWithEmail(db.users, claims.value.sub.value) then
      Failure(BadCredentials("User not found for refresh token"))
    else if ExpiredAt(claims.value, nowMs) then Failure(BadCredentials("Invalid refresh token"))
    else
      var user := db.users[UserIdWithEmail(db.users, claims.value.sub.value)];
      Success(RefreshTokenResponse(UserToken(db, user, cfg, nowMs), GetExpirationTime(cfg)))
  }

  /**
   * The corrected exchange refuses with "Invalid refresh token" exactly the
   * correctly signed, expired tokens of stored users, and otherwise answers
   * as the code does.
   */
  lemma RefreshTokenCheckedMeaning(db: Db, cfg: JwtConfig, token: Token, nowMs: int)
    requires Consistent(db)
    ensures RefreshTokenChecked(db, cfg, token, nowMs) == Failure(BadCredentials("Invalid refresh token"))
        <==> && token.Signed? && token.key == cfg.secretKey && token.claims.sub.Some?
             && HasUserWithEmail(db.users, token.claims.sub.value) && ExpiredAt(token.claims, nowMs)
    ensures !(token.Signed? && token.key == cfg.secretKey && ExpiredAt(token.claims, nowMs)) ==>
      RefreshTokenChecked(db, cfg, token, nowMs) == RefreshToken(db, cfg, token, nowMs)
  {
    if token.Signed? && token.key == cfg.secretKey && !ExpiredAt(token.claims, nowMs)
       && token.claims.sub.Some? && HasUserWithEmail(db.users, token.claims.sub.value) {
      var user := db.users[UserIdWithEmail(db.users, token.claims.sub.value)];
      assert IsTokenValid(token, Username(user), cfg.secretKey, nowMs) == Success(true);
    }
  }
}
