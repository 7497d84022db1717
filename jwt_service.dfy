/**
 * `services/JwtService.java`: the claims of access and refresh tokens and
 * the checks made on a presented token. Signing and parsing (JJWT, HS256)
 * are modelled by the `Token` datatype: a token is either a claim set
 * signed with some key or text the parser cannot read.
 */
module JwtService {
  import opened Wrappers
  import opened Text
  import opened Entities
  import Sets

  /**
   * The registered claims the service uses (section 4.1 of RFC 7519) and
   * the private `roles` claim. `iat` and `exp` are NumericDates: whole
   * seconds since the epoch.
   */
  datatype Claims = Claims(roles: Option<seq<string>>, sub: Option<string>, iat: int, exp: int)

  /** A compact JWS as the parser sees it. */
  datatype Token = Signed(claims: Claims, key: string) | Unparseable(text: string)

  /** `app.jwt.secret`, `app.jwt.expiration-ms` and `app.jwt.refresh-expiration-ms`. */
  datatype JwtConfig = JwtConfig(secretKey: string, expirationMs: int, refreshExpirationMs: int)

  /** A `java.util.Date` in milliseconds as a NumericDate: Java's `/`, truncating toward zero. */
  function Seconds(ms: int): (r: int)
    ensures ms >= 0 ==> r * 1000 <= ms < r * 1000 + 1000
    ensures ms < 0 ==> r * 1000 - 1000 < ms <= r * 1000
  {
    if ms >= 0 then ms / 1000 else -((-ms) / 1000)
  }

  /**
   * The `roles` claim of `generateToken(userDetails)`: the authorities that
   * start with "ROLE_", in their original order.
   */
  function RolesClaim(authorities: seq<string>): (r: seq<string>)
    ensures forall a :: a in r <==> a in authorities && StartsWith(a, "ROLE_")
    ensures |r| <= |authorities|
  {
    if authorities == [] then []
    else (if StartsWith(authorities[0], "ROLE_") then [authorities[0]] else [])
         + RolesClaim(authorities[1..])
  }

  /** Filtering distributes over concatenation, so the kept roles stay in order. */
  lemma {:induction false} RolesClaimConcat(a: seq<string>, b: seq<string>)
    ensures RolesClaim(a + b) == RolesClaim(a) + RolesClaim(b)
    decreases |a|
  {
    if a == [] {
      assert a + b == b;
    } else {
      assert (a + b)[0] == a[0] && (a + b)[1..] == a[1..] + b;
      RolesClaimConcat(a[1..], b);
    }
  }

  /** An authority list made only of roles is kept whole. */
  lemma {:induction false} RolesClaimKeepsRoles(a: seq<string>)
    requires forall x | x in a :: StartsWith(x, "ROLE_")
    ensures RolesClaim(a) == a
    decreases |a|
  {
    if a != [] {
      RolesClaimKeepsRoles(a[1..]);
    }
  }

  /** A list without repeats is filtered to a list without repeats. */
  lemma {:induction false} RolesClaimDistinct(a: seq<string>)
    requires forall i, j | 0 <= i < j < |a| :: a[i] != a[j]
    ensures forall i, j | 0 <= i < j < |RolesClaim(a)| :: RolesClaim(a)[i] != RolesClaim(a)[j]
    decreases |a|
  {
    if a != [] {
      RolesClaimDistinct(a[1..]);
      assert a[0] !in a[1..];
    }
  }

  /**
   * The order in which a `HashSet` of authorities is streamed: every
   * element once, in an order the model leaves open.
   */
  ghost function Enumerate(s: set<string>): (r: seq<string>)
    ensures forall x :: x in r <==> x in s
    ensures |r| == |s|
    ensures forall i, j | 0 <= i < j < |r| :: r[i] != r[j]
    decreases s
  {
    if s == {} then []
    else
      var x := Sets.PickOf(s);
      [x] + Enumerate(s - {x})
  }

  /**
   * `generateToken(userDetails)`: the roles claim, the username as `sub`,
   * issued now and expiring `expirationMs` later, signed with the secret.
   */
  function GenerateToken(authorities: seq<string>, username: string, cfg: JwtConfig, nowMs: int): (r: Token)
    ensures r.Signed? && r.key == cfg.secretKey && r.claims.sub == Some(username)
    ensures r.claims.roles.Some? && forall a :: a in r.claims.roles.value <==> a in authorities && StartsWith(a, "ROLE_")
    ensures nowMs >= 0 && cfg.expirationMs >= 0 ==>
      r.claims.iat <= r.claims.exp && r.claims.exp * 1000 <= nowMs + cfg.expirationMs
  {
    ExpiryFollowsIssueWhenNatural(nowMs, cfg.expirationMs);
    Signed(Claims(Some(RolesClaim(authorities)), Some(username), Seconds(nowMs), Seconds(nowMs + cfg.expirationMs)),
           cfg.secretKey)
  }

  /** `generateRefreshToken`: only `sub`, `iat` and an `exp` `refreshExpirationMs` later. */
  function GenerateRefreshToken(username: string, cfg: JwtConfig, nowMs: int): (r: Token)
    ensures r.Signed? && r.key == cfg.secretKey && r.claims.sub == Some(username) && r.claims.roles.None?
    ensures nowMs >= 0 && cfg.refreshExpirationMs >= 0 ==>
      r.claims.iat <= r.claims.exp && r.claims.exp * 1000 <= nowMs + cfg.refreshExpirationMs
  {
    ExpiryFollowsIssueWhenNatural(nowMs, cfg.refreshExpirationMs);
    Signed(Claims(None, Some(username), Seconds(nowMs), Seconds(nowMs + cfg.refreshExpirationMs)), cfg.secretKey)
  }

  /** `exp` lies before the instant `nowMs` (`Date.before`). */
  predicate ExpiredAt(c: Claims, nowMs: int) {
    c.exp * 1000 < nowMs
  }

  /** Expiry is permanent: a token expired at one instant is expired at every later one. */
  lemma ExpiredAtMonotone(c: Claims, nowMs: int, later: int)
    requires nowMs <= later
    ensures ExpiredAt(c, nowMs) ==> ExpiredAt(c, later)
    ensures !ExpiredAt(c, later) ==> !ExpiredAt(c, nowMs)
  {
  }

  /**
   * `parseClaimsJws` with the service's key: unreadable text, a token
   * signed with another key, and an expired token are each refused.
   */
  function Parse(t: Token, key: string, nowMs: int): (r: Result<Claims, JwtFailure>)
    ensures r.Success? <==> t.Signed? && t.key == key && !ExpiredAt(t.claims, nowMs)
    ensures r.Success? ==> r.value == t.claims
    ensures r == Failure(Expired) <==> t.Signed? && t.key == key && ExpiredAt(t.claims, nowMs)
  {
    match t
    case Unparseable(_) => Failure(Malformed)
    case Signed(c, k) =>
      if k != key then Failure(SignatureInvalid)
      else if ExpiredAt(c, nowMs) then Failure(Expired)
      else Success(c)
  }

  /** `extractUsername`: the `sub` claim of a token the parser accepts (null when absent). */
  function ExtractUsername(t: Token, key: string, nowMs: int): (r: Result<Option<string>, JwtFailure>)
    ensures r.Success? <==> Parse(t, key, nowMs).Success?
    ensures r.Success? ==> r.value == t.claims.sub
  {
    var c := Parse(t, key, nowMs);
    if c.Failure? then Failure(c.error) else Success(c.value.sub)
  }

  /** `isTokenExpired`: parses the token again and compares `exp` with the time. */
  function IsTokenExpired(t: Token, key: string, nowMs: int): (r: Result<bool, JwtFailure>)
    ensures r.Success? <==> Parse(t, key, nowMs).Success?
    ensures r.Success? ==> r.value == ExpiredAt(t.claims, nowMs)
  {
    var c := Parse(t, key, nowMs);
    if c.Failure? then Failure(c.error) else Success(ExpiredAt(c.value, nowMs))
  }

  /**
   * `isTokenValid`: the subject must equal the username and, only then, the
   * token must not be expired. It throws exactly when the parser refuses the
   * token or the token has no `sub` (`equals` on null).
   */
  function IsTokenValid(t: Token, username: string, key: string, nowMs: int): (r: Result<bool, JwtFailure>)
    ensures r.Failure? <==> !Parse(t, key, nowMs).Success? || t.claims.sub.None?
    ensures r.Failure? && !Parse(t, key, nowMs).Success? ==> r.error == Parse(t, key, nowMs).error
    ensures r.Success? ==> (r.value <==> t.claims.sub == Some(username) && !ExpiredAt(t.claims, nowMs))
  {
    var sub := ExtractUsername(t, key, nowMs);
    if sub.Failure? then Failure(sub.error)
    else if sub.value.None? then Failure(MissingSubject)
    else if sub.value.value != username then Success(false)
    else
      match IsTokenExpired(t, key, nowMs)
      case Success(expired) => Success(!expired)
      case Failure(e) => Failure(e)
  }

  /**
   * Because the parser already refuses expired tokens, the expiry conjunct
   * of `isTokenValid` never decides: an answer is false only for another subject.
   */
  lemma IsTokenValidIgnoresExpiry(t: Token, username: string, key: string, nowMs: int)
    requires IsTokenValid(t, username, key, nowMs) == Success(false)
    ensures t.claims.sub != Some(username)
  {
  }

  /** `validateToken`: true iff the parser accepts the token; it never throws. */
  function ValidateToken(t: Token, key: string, nowMs: int): (r: bool)
    ensures r <==> Parse(t, key, nowMs).Success?
    ensures r <==> t.Signed? && t.key == key && !ExpiredAt(t.claims, nowMs)
  {
    match Parse(t, key, nowMs)
    case Success(_) => true
    case Failure(_) => false
  }

  /** `getExpirationTime`: the configured access-token lifetime in milliseconds. */
  function GetExpirationTime(cfg: JwtConfig): (r: int)
    ensures r == cfg.expirationMs
  {
    cfg.expirationMs
  }

  /**
   * An access token issued at `t0` carries the roles claim and the
   * username, and is accepted for its user until its expiry instant.
   */
  lemma AccessTokenRoundTrip(authorities: seq<string>, username: string, cfg: JwtConfig, t0: int, later: int)
    ensures GenerateToken(authorities, username, cfg, t0).claims.roles == Some(RolesClaim(authorities))
    ensures ExtractUsername(GenerateToken(authorities, username, cfg, t0), cfg.secretKey, later).Success?
        <==> later <= Seconds(t0 + cfg.expirationMs) * 1000
    ensures later <= Seconds(t0 + cfg.expirationMs) * 1000 ==>
      && ExtractUsername(GenerateToken(authorities, username, cfg, t0), cfg.secretKey, later) == Success(Some(username))
      && IsTokenValid(GenerateToken(authorities, username, cfg, t0), username, cfg.secretKey, later) == Success(true)
    ensures !ValidateToken(GenerateToken(authorities, username, cfg, t0), cfg.secretKey + "x", later)
  {
  }

  /** A refresh token has no roles claim and is accepted for its user until its expiry instant. */
  lemma RefreshTokenRoundTrip(username: string, cfg: JwtConfig, t0: int, later: int)
    ensures GenerateRefreshToken(username, cfg, t0).claims.roles.None?
    ensures later <= Seconds(t0 + cfg.refreshExpirationMs) * 1000 ==>
      IsTokenValid(GenerateRefreshToken(username, cfg, t0), username, cfg.secretKey, later) == Success(true)
    ensures later > Seconds(t0 + cfg.refreshExpirationMs) * 1000 ==>
      IsTokenValid(GenerateRefreshToken(username, cfg, t0), username, cfg.secretKey, later) == Failure(Expired)
  {
  }

  /**
   * With a non-negative lifetime the expiry instant is never before the
   * issue instant, and it lies less than a second from issue time plus lifetime.
   */
  lemma ExpiryFollowsIssue(nowMs: int, lifetimeMs: int)
    requires nowMs >= 0 && lifetimeMs >= 0
    ensures Seconds(nowMs) <= Seconds(nowMs + lifetimeMs)
    ensures Seconds(nowMs + lifetimeMs) * 1000 <= nowMs + lifetimeMs < Seconds(nowMs + lifetimeMs) * 1000 + 1000
  {
  }

  /** `ExpiryFollowsIssue` as an implication, for callers that cannot require its premise. */
  lemma ExpiryFollowsIssueWhenNatural(nowMs: int, lifetimeMs: int)
    ensures nowMs >= 0 && lifetimeMs >= 0 ==>
      Seconds(nowMs) <= Seconds(nowMs + lifetimeMs) && Seconds(nowMs + lifetimeMs) * 1000 <= nowMs + lifetimeMs
  {
    if nowMs >= 0 && lifetimeMs >= 0 {
      ExpiryFollowsIssue(nowMs, lifetimeMs);
    }
  }
}
