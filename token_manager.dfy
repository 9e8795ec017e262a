/** The browser-side token store of the storefront UI
    (emporia-UI/src/utils/tokenManager.ts): two `localStorage` entries, one
    holding the access token and one holding the signed-in user as JSON. */
module TokenStore {
  import opened Common

  /** The user record the server returns at login. */
  datatype UserProfile = UserProfile(
    id: string,
    userName: string,
    email: string,
    role: Option<string>,
    firstName: string,
    lastName: string,
    customerId: Option<string>,
    sellerId: Option<string>,
    adminId: Option<string>)

  /** What the user entry of `localStorage` holds: text that
      `JSON.stringify` produced from a profile (and that `JSON.parse` turns
      back into that profile), or text written by anything else. */
  datatype UserEntry = Serialized(profile: UserProfile) | Foreign(text: string)

  /** The part of a token's decoded payload the client looks at. `exp` is the
      claim as a number of seconds; `None` when it is missing or does not
      compare as a number, in which case `payload.exp < now` is false. */
  datatype Payload = Payload(exp: Option<int>)

  /** `JSON.parse(atob(token.split('.')[1]))` followed by the read of `exp`:
      `None` whenever any of these steps throws (no second segment, bad
      base64, bad JSON, a `null` payload). */
  type Decoder = string -> Option<Payload>

  /** `JSON.parse` on text that did not come from `setUser`: `None` when it
      throws. */
  type Parser = string -> Option<UserProfile>

  /** How the expiry check classifies the stored token. */
  datatype TokenStatus = Absent | Valid | Expired | Malformed

  /** The classification `isAuthenticated` makes at wall-clock time `nowMs`
      (milliseconds). The comparison `exp < nowMs / 1000` is written
      `exp * 1000 < nowMs`, which is the same comparison on exact numbers. */
  function StatusOf(token: Option<string>, nowMs: int, decode: Decoder): TokenStatus
  {
    if token == None || token.value == "" then Absent
    else match decode(token.value)
      case None => Malformed
      case Some(p) => if p.exp.Some? && p.exp.value * 1000 < nowMs then Expired else Valid
  }

  /** What `getUser` yields for a stored entry: `Ok(None)` for a missing or
      empty entry, the profile for an entry `setUser` wrote, and for foreign
      text whatever `JSON.parse` makes of it; `Err` when `JSON.parse`
      throws, which `getUser` does not catch. */
  function ReadUser(entry: Option<UserEntry>, parse: Parser): (r: Result<Option<UserProfile>>)
    ensures entry == None ==> r == Ok(None)
    ensures entry.Some? && entry.value.Serialized? ==> r == Ok(Some(entry.value.profile))
    ensures r.Err? ==> entry.Some? && entry.value.Foreign? && entry.value.text != ""
  {
    match entry
    case None => Ok(None)
    case Some(Serialized(u)) => Ok(Some(u))
    case Some(Foreign(text)) =>
      if text == "" then Ok(None)
      else match parse(text)
        case None => Err("JSON.parse: unexpected token")
        case Some(u) => Ok(Some(u))
  }

  /** The headers `getAuthHeader` returns: `{}` or `{Authorization: value}`. */
  datatype AuthHeader = NoHeader | Authorization(value: string)

  /** `getAuthHeader` as a function of the stored token. */
  function HeaderFor(token: Option<string>): (h: AuthHeader)
    ensures h == NoHeader <==> token == None || token == Some("")
    ensures h.Authorization? ==> h.value == "Bearer " + token.value
  {
    if token == None || token.value == "" then NoHeader
    else Authorization("Bearer " + token.value)
  }

  /** Only a token that decodes and has not expired counts as a session. */
  lemma ValidMeansDecodable(token: Option<string>, nowMs: int, decode: Decoder)
    requires StatusOf(token, nowMs, decode) == Valid
    ensures token.Some? && token.value != "" && decode(token.value).Some?
    ensures HeaderFor(token) == Authorization("Bearer " + token.value)
  {
  }

  /** The expiry comparison is strict: a token whose `exp` is exactly the
      current second is still valid, and a payload without a numeric `exp`
      never expires. */
  lemma ExpiryBoundary(token: string, nowMs: int, decode: Decoder)
    requires token != "" && decode(token).Some?
    ensures decode(token).value.exp == Some(nowMs / 1000) && nowMs % 1000 == 0 ==>
              StatusOf(Some(token), nowMs, decode) == Valid
    ensures decode(token).value.exp == None ==> StatusOf(Some(token), nowMs, decode) == Valid
    ensures decode(token).value.exp.Some? && decode(token).value.exp.value * 1000 < nowMs ==>
              StatusOf(Some(token), nowMs, decode) == Expired
  {
  }

  /** The store of tokenManager.ts. Each static method of the source is a
      method here; the class holds the two `localStorage` entries. */
  class TokenManager {
    var token: Option<string>
    var user: Option<UserEntry>

    constructor ()
      ensures token == None && user == None
    {
      token, user := None, None;
    }

    method SetToken(t: string)
      modifies this`token
      ensures token == Some(t)
    {
      token := Some(t);
    }

    method GetToken() returns (t: Option<string>)
      ensures t == token
    {
      t := token;
    }

    /** Removes both entries. */
    method RemoveToken()
      modifies this
      ensures token == None && user == None
    {
      token := None;
      user := None;
    }

    method SetUser(u: UserProfile)
      modifies this`user
      ensures user == Some(Serialized(u))
    {
      user := Some(Serialized(u));
    }

    method GetUser(parse: Parser) returns (r: Result<Option<UserProfile>>)
      ensures r == ReadUser(user, parse)
      ensures user == None ==> r == Ok(None)
    {
      if user == None {
        r := Ok(None);
      } else {
        match user.value
        case Serialized(u) =>
          r := Ok(Some(u));
        case Foreign(text) =>
          if text == "" {
            r := Ok(None);
          } else {
            match parse(text)
            case None =>
              r := Err("JSON.parse: unexpected token");
            case Some(u) =>
              r := Ok(Some(u));
          }
      }
    }

    /** The expiry check. It never throws: a token that fails to decode and
        an expired token both clear the store and answer false; no token
        answers false and leaves the store alone. */
    method IsAuthenticated(nowMs: int, decode: Decoder) returns (ok: bool)
      modifies this
      ensures ok <==> StatusOf(old(token), nowMs, decode) == Valid
      ensures StatusOf(old(token), nowMs, decode) in {Expired, Malformed} ==>
                token == None && user == None
      ensures StatusOf(old(token), nowMs, decode) in {Absent, Valid} ==>
                token == old(token) && user == old(user)
    {
      var t := GetToken();
      if t == None || t.value == "" {
        return false;
      }
      match decode(t.value)
      case None =>
        RemoveToken();
        ok := false;
      case Some(payload) =>
        if payload.exp.Some? && payload.exp.value * 1000 < nowMs {
          RemoveToken();
          ok := false;
        } else {
          ok := true;
        }
    }

    method GetAuthHeader() returns (h: AuthHeader)
      ensures h == HeaderFor(token)
      ensures h == NoHeader <==> token == None || token == Some("")
      ensures h.Authorization? ==> h.value == "Bearer " + token.value
    {
      var t := GetToken();
      if t == None || t.value == "" {
        h := NoHeader;
      } else {
        h := Authorization("Bearer " + t.value);
      }
    }
  }

  /** `setToken(t); getToken()` yields `t`; `setUser(u); getUser()` yields
      `u`; the other entry is left as it was. */
  method StoreRoundTrip(tm: TokenManager, t: string, u: UserProfile, parse: Parser)
      returns (t': Option<string>, u': Result<Option<UserProfile>>)
    modifies tm
    ensures t' == Some(t) && u' == Ok(Some(u))
  {
    tm.SetToken(t);
    tm.SetUser(u);
    t' := tm.GetToken();
    u' := tm.GetUser(parse);
  }

  /** After `removeToken()` both getters report nothing and no header is sent. */
  method RemoveThenRead(tm: TokenManager, parse: Parser)
      returns (t': Option<string>, u': Result<Option<UserProfile>>, h: AuthHeader)
    modifies tm
    ensures t' == None && u' == Ok(None) && h == NoHeader
  {
    tm.RemoveToken();
    t' := tm.GetToken();
    u' := tm.GetUser(parse);
    h := tm.GetAuthHeader();
  }
}
