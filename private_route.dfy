/** The role gate in front of protected pages
    (emporia-UI/src/components/routing/PrivateRoutes.tsx). */
module RouteGuard {
  import opened Common
  import opened TokenStore

  datatype Role = Customer | Seller | Admin

  function RoleName(r: Role): string
  {
    match r
    case Customer => "customer"
    case Seller => "seller"
    case Admin => "admin"
  }

  /** What the component renders: the child routes, a redirect to the login
      page that remembers where the user was going, the in-place
      "Access Denied" panel, or nothing at all because `getUser` threw. */
  datatype Decision =
    | Allow
    | RedirectToLogin(target: string, from: string)
    | AccessDenied(requiredRole: string, userRole: Option<string>)
    | RenderFailure(error: string)

  /** The decision chain once the expiry check has answered `authenticated`
      and, when a role is required, `getUser` has answered `stored`. */
  function Decide(authenticated: bool, requiredRole: Option<Role>,
                  stored: Result<Option<UserProfile>>, location: string): Decision
  {
    if !authenticated then RedirectToLogin("/login", location)
    else if requiredRole == None then Allow
    else match stored
      case Err(e) => RenderFailure(e)
      case Ok(None) => RedirectToLogin("/login", location)
      case Ok(Some(u)) =>
        if u.role != Some(RoleName(requiredRole.value)) then AccessDenied(RoleName(requiredRole.value), u.role)
        else Allow
  }

  /** Not being signed in sends the user to the login page, whatever role the
      route asks for and whatever the stored user says. */
  lemma UnauthenticatedAlwaysRedirects(requiredRole: Option<Role>,
                                       stored: Result<Option<UserProfile>>, location: string)
    ensures Decide(false, requiredRole, stored, location) == RedirectToLogin("/login", location)
  {
  }

  /** A signed-in user whose stored role differs from the required one sees
      the denial in place and is never sent to the login page; a matching
      role is let through. */
  lemma WrongRoleIsDeniedInPlace(r: Role, u: UserProfile, location: string)
    ensures u.role != Some(RoleName(r)) ==>
              Decide(true, Some(r), Ok(Some(u)), location) == AccessDenied(RoleName(r), u.role)
    ensures u.role == Some(RoleName(r)) ==> Decide(true, Some(r), Ok(Some(u)), location) == Allow
  {
  }

  /** The component itself. The expiry check may clear an expired or
      malformed token before anything else is looked at; a signed-in user
      with no stored profile on a role-gated route has the store cleared
      too. In every other case the store is left alone. */
  method PrivateRoute(tm: TokenManager, requiredRole: Option<Role>, location: string,
                      nowMs: int, decode: Decoder, parse: Parser) returns (d: Decision)
    modifies tm
    ensures d == Decide(StatusOf(old(tm.token), nowMs, decode) == Valid, requiredRole,
                        ReadUser(old(tm.user), parse), location)
    ensures StatusOf(old(tm.token), nowMs, decode) in {Expired, Malformed} ==>
              tm.token == None && tm.user == None
    ensures StatusOf(old(tm.token), nowMs, decode) == Valid && requiredRole.Some? &&
            ReadUser(old(tm.user), parse) == Ok(None) ==>
              tm.token == None && tm.user == None
    ensures d.AccessDenied? || d == Allow || d.RenderFailure? ==>
              tm.token == old(tm.token) && tm.user == old(tm.user)
  {
    var authenticated := tm.IsAuthenticated(nowMs, decode);
    if !authenticated {
      return RedirectToLogin("/login", location);
    }
    if requiredRole.Some? {
      var stored := tm.GetUser(parse);
      match stored
      case Err(e) =>
        return RenderFailure(e);
      case Ok(None) =>
        tm.RemoveToken();
        return RedirectToLogin("/login", location);
      case Ok(Some(u)) =>
        if u.role != Some(RoleName(requiredRole.value)) {
          return AccessDenied(RoleName(requiredRole.value), u.role);
        }
    }
    d := Allow;
  }

  /** A protected call that the server answers with 401 makes the API client
      (emporia-UI/src/utils/apiClient.ts) clear the store; the next guarded
      navigation then redirects to the login page. */
  method RejectedThenGuarded(tm: TokenManager, requiredRole: Option<Role>, location: string,
                             nowMs: int, decode: Decoder, parse: Parser) returns (d: Decision)
    modifies tm
    ensures d == RedirectToLogin("/login", location)
  {
    tm.RemoveToken();
    d := PrivateRoute(tm, requiredRole, location, nowMs, decode, parse);
  }
}
