/**
 * `components/ProtectedRoute.tsx`: whether a route shows its content,
 * waits, or redirects, given the session and the roles the route allows.
 */
module ProtectedRoute {
  import opened Wrappers
  import opened Entities
  import opened Store
  import opened UserEntity
  import AuthContext
  import JwtService
  import PermissionEntity

  /** What the route renders. */
  datatype View = Checking | Outlet | RedirectToDashboard | RedirectToLogin(from: string)

  /** `allowed.some(role => roles.includes(role))`. */
  function SomeAllowedHeld(allowed: seq<string>, roles: seq<string>): (r: bool)
    ensures r <==> exists i | 0 <= i < |allowed| :: allowed[i] in roles
  {
    if allowed == [] then false
    else allowed[0] in roles || SomeAllowedHeld(allowed[1..], roles)
  }

  /** `hasRequiredRole`: no list admits everyone; a list admits holders of one of its roles. */
  function HasRequiredRole(allowed: Option<seq<string>>, roles: seq<string>): (r: bool)
    ensures allowed.None? ==> r
    ensures allowed.Some? ==> (r <==> exists a | a in allowed.value :: a in roles)
  {
    allowed.None? || SomeAllowedHeld(allowed.value, roles)
  }

  /**
   * The route decision, reading roles from the context's `roles` field:
   * while loading, a waiting notice; signed out, the login page remembering
   * where the user was; signed in, the content if the user holds one of the
   * allowed roles, and the dashboard otherwise.
   */
  function Decide(ctx: AuthContext.ContextValue, allowed: Option<seq<string>>, location: string): (r: View)
    ensures ctx.isLoading ==> r == Checking
    ensures !ctx.isLoading && !ctx.isAuthenticated ==> r == RedirectToLogin(location)
    ensures !ctx.isLoading && ctx.isAuthenticated ==>
      (r == Outlet <==> HasRequiredRole(allowed, ctx.roles))
      && (r == RedirectToDashboard <==> !HasRequiredRole(allowed, ctx.roles))
  {
    if ctx.isLoading then Checking
    else if ctx.isAuthenticated then
      if HasRequiredRole(allowed, ctx.roles) then Outlet else RedirectToDashboard
    else RedirectToLogin(location)
  }

  /** The content shows only to a signed-in user, never while loading. */
  lemma OutletNeedsSession(ctx: AuthContext.ContextValue, allowed: Option<seq<string>>, location: string)
    requires Decide(ctx, allowed, location) == Outlet
    ensures !ctx.isLoading && ctx.isAuthenticated
  {
  }

  /** An empty list of allowed roles turns every signed-in user away. */
  lemma EmptyAllowedDenies(ctx: AuthContext.ContextValue, location: string)
    requires !ctx.isLoading && ctx.isAuthenticated
    ensures Decide(ctx, Some([]), location) == RedirectToDashboard
  {
  }

  /** Allowing more roles never turns away a user who was let in. */
  lemma MoreAllowedAdmitsMore(ctx: AuthContext.ContextValue, allowed: seq<string>, extra: seq<string>, location: string)
    requires Decide(ctx, Some(allowed), location) == Outlet
    ensures Decide(ctx, Some(allowed + extra), location) == Outlet
  {
    var a :| a in allowed && a in ctx.roles;
    assert a in allowed + extra;
  }

  /**
   * The route as written: it reads `roles` from a `userDetails` field,
   * which the context value does not have. Reading a property of
   * `undefined` throws, before any decision is made.
   */
  function RenderAsWritten(ctx: AuthContext.ContextValue, allowed: Option<seq<string>>, location: string): (r: Result<View, string>)
    ensures r.Success? <==> "userDetails" in AuthContext.ContextValueKeys
    ensures r.Success? ==> r.value == Decide(ctx, allowed, location)
  {
    if "userDetails" in AuthContext.ContextValueKeys then Success(Decide(ctx, allowed, location))
    else Failure("TypeError: Cannot read properties of undefined (reading 'roles')")
  }

  /** The route as written throws on every render, loading or not, signed in or not. */
  lemma RenderAsWrittenAlwaysThrows(ctx: AuthContext.ContextValue, allowed: Option<seq<string>>, location: string)
    ensures RenderAsWritten(ctx, allowed, location).Failure?
  {
    assert "userDetails" !in AuthContext.ContextValueKeys;
  }

  /**
   * A permission name contains the colon that separates resource and
   * action, so no colon-free string is a permission name.
   */
  lemma ColonFreeIsNoPermissionName(db: Db, pid: int, a: string)
    requires PermissionName(db, pid) == Some(a)
    ensures ':' in a
  {
    var p := db.permissions[pid];
    var rn := db.resources[p.resourceId].name;
    assert a[|rn|] == ':';
  }

  /** The roles the frontend reads from the access token the backend issues to `u`. */
  ghost function TokenRoles(db: Db, u: User, username: string, cfg: JwtService.JwtConfig, nowMs: int): seq<string>
    requires u.roleId in db.roles
  {
    var claims := JwtService.GenerateToken(JwtService.Enumerate(Authorities(db, u)), username, cfg, nowMs).claims;
    AuthContext.DetailsFrom(AuthContext.DecodedOf(claims)).roles
  }

  /**
   * Through the backend's access token: a route whose allowed roles carry
   * no colon (as "ROLE_ADMIN" and "ROLE_MODERATOR") admits a user exactly
   * when the user's role authority is in the list, whatever permissions
   * the role holds and whatever their names.
   */
  lemma RouteAdmitsByRole(db: Db, u: User, allowed: seq<string>, username: string, cfg: JwtService.JwtConfig, nowMs: int)
    requires u.roleId in db.roles
    requires forall a | a in allowed :: ':' !in a
    ensures HasRequiredRole(Some(allowed), TokenRoles(db, u, username, cfg, nowMs))
      <==> RoleAuthority(db.roles[u.roleId].name) in allowed
  {
    var auths := Authorities(db, u);
    var roles := JwtService.RolesClaim(JwtService.Enumerate(auths));
    AuthContext.AccessTokenDetails(JwtService.Enumerate(auths), username, cfg, nowMs);
    assert TokenRoles(db, u, username, cfg, nowMs) == roles;
    var mine := RoleAuthority(db.roles[u.roleId].name);
    assert mine in roles;
    forall a | a in allowed && a in roles
      ensures a == mine
    {
      assert a in auths;
      if a != mine {
        var pid :| pid in db.roles[u.roleId].permissions && PermissionName(db, pid) == Some(a);
        ColonFreeIsNoPermissionName(db, pid, a);
      }
    }
  }

  /** Only the ADMIN role has the authority "ROLE_ADMIN". */
  lemma AdminAuthority(n: RoleName)
    ensures RoleAuthority(n) == "ROLE_ADMIN" <==> n == ADMIN
  {
    if RoleAuthority(n) == "ROLE_ADMIN" {
      assert RoleNameText(n) == RoleAuthority(n)[5..] == "ADMIN";
      RoleNameTextInjective(n, ADMIN);
    }
  }

  /** The administration routes: only ADMIN reaches the ROLE_ADMIN routes. */
  lemma AdminRouteOnlyAdmins(db: Db, u: User, username: string, cfg: JwtService.JwtConfig, nowMs: int)
    requires u.roleId in db.roles
    ensures HasRequiredRole(Some(["ROLE_ADMIN"]), TokenRoles(db, u, username, cfg, nowMs))
      <==> db.roles[u.roleId].name == ADMIN
  {
    RouteAdmitsByRole(db, u, ["ROLE_ADMIN"], username, cfg, nowMs);
    AdminAuthority(db.roles[u.roleId].name);
  }
}
