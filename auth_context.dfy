/** The session state machine of the UI (emporia-UI/src/context/AuthContext.tsx):
    the React state `user`, `isAuthenticated` and `loading`, kept in step with
    the token store by `initializeAuth`, `login` and `logout`. The outcomes of
    the server calls are inputs: `Ok` for a resolved call, `Err` for a
    rejected one. */
module AuthContext {
  import opened Common
  import opened TokenStore

  /** The answer of a successful `POST /auth/login`. */
  datatype LoginResponse = LoginResponse(accessToken: string, user: UserProfile)

  class AuthProvider {
    const store: TokenManager
    var user: Option<UserProfile>
    var isAuthenticated: bool
    var loading: bool

    /** The initial React state on mount. */
    constructor (store: TokenManager)
      ensures this.store == store
      ensures user == None && !isAuthenticated && loading
    {
      this.store := store;
      user, isAuthenticated, loading := None, false, true;
    }

    /** A resolved login stores the token and the user, then marks the
        session; a rejected one is rethrown before anything is written. */
    method Login(response: Result<LoginResponse>) returns (r: Result<LoginResponse>)
      modifies this, store
      ensures r == response
      ensures response.Ok? ==>
                store.token == Some(response.value.accessToken) &&
                store.user == Some(Serialized(response.value.user)) &&
                user == Some(response.value.user) && isAuthenticated && loading == old(loading)
      ensures response.Err? ==>
                store.token == old(store.token) && store.user == old(store.user) &&
                user == old(user) && isAuthenticated == old(isAuthenticated) && loading == old(loading)
    {
      if response.Err? {
        return response;
      }
      store.SetToken(response.value.accessToken);
      store.SetUser(response.value.user);
      user := Some(response.value.user);
      isAuthenticated := true;
      r := response;
    }

    /** Registration only forwards the server's answer: it has no
        `modifies` clause, so the session is untouched. */
    method Register<T>(response: Result<T>) returns (r: Result<T>)
      ensures r == response
    {
      r := response;
    }

    /** Logout asks the server only while the local token is valid
        (`contacted`), whatever the server answers (`server`), and always
        ends with the store cleared and the session marked signed out. */
    method Logout(nowMs: int, decode: Decoder, server: Result<()>) returns (contacted: bool)
      modifies this, store
      ensures contacted <==> StatusOf(old(store.token), nowMs, decode) == Valid
      ensures store.token == None && store.user == None
      ensures user == None && !isAuthenticated && loading == old(loading)
    {
      // `ApiClient.logout()` is awaited only when `contacted`; its outcome
      // `server` is at most logged, so it decides nothing below.
      contacted := store.IsAuthenticated(nowMs, decode);
      store.RemoveToken();
      user := None;
      isAuthenticated := false;
    }

    /** Start-up rehydration. With a valid token and a stored user the
        session is restored, and dropped again if the server rejects the
        token; with a valid token and no stored user nothing changes (the
        token stays); a stored user that does not parse ends in logout; and
        `loading` is false on every path. */
    method InitializeAuth(nowMs: int, decode: Decoder, parse: Parser,
                          verify: Result<()>, logoutCall: Result<()>)
      modifies this, store
      ensures !loading
      ensures StatusOf(old(store.token), nowMs, decode) != Valid ==>
                user == old(user) && isAuthenticated == old(isAuthenticated)
      ensures StatusOf(old(store.token), nowMs, decode) in {Expired, Malformed} ==>
                store.token == None && store.user == None
      ensures StatusOf(old(store.token), nowMs, decode) == Absent ==>
                store.token == old(store.token) && store.user == old(store.user)
      ensures StatusOf(old(store.token), nowMs, decode) == Valid ==>
                match ReadUser(old(store.user), parse)
                case Ok(None) =>
                  user == old(user) && isAuthenticated == old(isAuthenticated) &&
                  store.token == old(store.token) && store.user == old(store.user)
                case Ok(Some(u)) =>
                  if verify.Ok? then
                    user == Some(u) && isAuthenticated &&
                    store.token == old(store.token) && store.user == old(store.user)
                  else
                    user == None && !isAuthenticated && store.token == None && store.user == None
                case Err(_) =>
                  user == None && !isAuthenticated && store.token == None && store.user == None
    {
      var authenticated := store.IsAuthenticated(nowMs, decode);
      if authenticated {
        var userData := store.GetUser(parse);
        match userData
        case Err(_) =>
          // `JSON.parse` threw: the outer catch logs out.
          var _ := Logout(nowMs, decode, logoutCall);
        case Ok(None) =>
        case Ok(Some(u)) =>
          user := Some(u);
          isAuthenticated := true;
          if verify.Err? {
            var _ := Logout(nowMs, decode, logoutCall);
          }
      }
      loading := false;
    }
  }

  /** After a successful login whose token decodes and has not expired, the
      expiry check accepts the session and every protected request carries
      the bearer header. */
  method LoginThenRequest(p: AuthProvider, response: LoginResponse, nowMs: int, decode: Decoder)
      returns (ok: bool, h: AuthHeader)
    requires response.accessToken != ""
    requires decode(response.accessToken).Some?
    requires decode(response.accessToken).value.exp == None ||
             nowMs <= decode(response.accessToken).value.exp.value * 1000
    modifies p, p.store
    ensures ok && h == Authorization("Bearer " + response.accessToken)
  {
    var _ := p.Login(Ok(response));
    ok := p.store.IsAuthenticated(nowMs, decode);
    h := p.store.GetAuthHeader();
  }

  /** Logging out while the server is unreachable still clears the session. */
  method LogoutOffline(p: AuthProvider, nowMs: int, decode: Decoder)
    modifies p, p.store
    ensures p.store.token == None && p.store.user == None && p.user == None && !p.isAuthenticated
  {
    var _ := p.Logout(nowMs, decode, Err("Failed to fetch"));
  }
}
