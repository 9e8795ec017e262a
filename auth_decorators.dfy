/** Request authentication of the API (emporia-api/utils/auth_decorators.py):
    `token_required` reads the bearer token from the `Authorization` header,
    has it verified and records the caller on the request; `role_required`
    adds a role comparison. Signature checking (`verify_token`) is a
    parameter. */
module AuthDecorators {
  import opened Common

  /** A JSON value of a token claim. */
  datatype Claim = Null | Num(n: int) | Str(s: string) | Bool(b: bool)

  type Payload = map<string, Claim>

  /** `jwt_manager.verify_token`: the decoded payload, or `None` for a bad or
      expired token. */
  type Verifier = string -> Option<Payload>

  /** `payload.get(key)`: `None` (JSON `null`) for a missing key. */
  function Get(p: Payload, key: string): (c: Claim)
    ensures key !in p ==> c == Null
  {
    if key in p then p[key] else Null
  }

  /** `request.current_user` */
  datatype CurrentUser = CurrentUser(userId: Claim, role: Claim, customerId: Claim, sellerId: Claim)

  /** What the decorator does with the request: answer it with an error, or
      call the wrapped handler for the given caller. */
  datatype Outcome = Reject(status: int, message: string) | Proceed(user: CurrentUser)

  /** Python's `s.split(" ")`: the pieces between single spaces, empty pieces
      included. */
  function Split(s: string): (r: seq<string>)
    ensures |r| >= 1
    decreases |s|
  {
    if s == [] then [""]
    else if s[0] == ' ' then [""] + Split(s[1..])
    else
      var rest := Split(s[1..]);
      [[s[0]] + rest[0]] + rest[1..]
  }

  /** `" ".join(parts)` */
  function Join(parts: seq<string>): string
    requires |parts| >= 1
  {
    if |parts| == 1 then parts[0] else parts[0] + " " + Join(parts[1..])
  }

  function SpaceCount(s: string): nat
  {
    if s == [] then 0 else (if s[0] == ' ' then 1 else 0) + SpaceCount(s[1..])
  }

  /** Splitting loses nothing: joining the pieces gives the header back. */
  lemma {:induction false} JoinSplit(s: string)
    ensures Join(Split(s)) == s
    decreases |s|
  {
    if s == [] {
    } else if s[0] == ' ' {
      JoinSplit(s[1..]);
    } else {
      JoinSplit(s[1..]);
      var rest := Split(s[1..]);
      if |rest| > 1 {
        assert Join(rest) == rest[0] + " " + Join(rest[1..]);
      }
    }
  }

  /** There is one piece more than there are spaces, and no piece holds a
      space. */
  lemma {:induction false} SplitShape(s: string)
    ensures |Split(s)| == SpaceCount(s) + 1
    ensures forall k :: 0 <= k < |Split(s)| ==> ' ' !in Split(s)[k]
    decreases |s|
  {
    if s != [] {
      SplitShape(s[1..]);
    }
  }

  /** A leading word without a space is the first piece, and the rest is
      split on its own. */
  lemma {:induction false} SplitAfterWord(a: string, b: string)
    requires ' ' !in a
    ensures Split(a + " " + b) == [a] + Split(b)
    decreases |a|
  {
    if a == [] {
      assert a + " " + b == [' '] + b;
      assert ([' '] + b)[1..] == b;
    } else {
      assert (a + " " + b)[1..] == a[1..] + " " + b;
      SplitAfterWord(a[1..], b);
      assert [a[0]] + a[1..] == a;
    }
  }

  lemma {:induction false} SplitWord(a: string)
    requires ' ' !in a
    ensures Split(a) == [a]
    decreases |a|
  {
    if a != [] {
      SplitWord(a[1..]);
      assert [a[0]] + a[1..] == a;
    }
  }

  /** `auth_header.split(" ")[1]` for a non-empty header: `Err` stands for
      the `IndexError` of a header without a space. */
  function SecondWord(header: string): (r: Result<string>)
  {
    var parts := Split(header);
    if |parts| < 2 then Err("Invalid token format") else Ok(parts[1])
  }

  /** The token checks of `token_required`, in their order. */
  function TokenDecision(header: Option<string>, verify: Verifier): (o: Outcome)
    ensures o.Reject? ==> o.status == 401
  {
    var token :=
      if header == None || header.value == "" then Ok("")
      else SecondWord(header.value);
    match token
    case Err(m) => Reject(401, m)
    case Ok(t) =>
      if t == "" then Reject(401, "Token is missing")
      else match verify(t)
        case None => Reject(401, "Token is invalid or expired")
        case Some(p) =>
          if p == map[] then Reject(401, "Token is invalid or expired")
          else Proceed(CurrentUser(Get(p, "user_id"), Get(p, "role"),
                                   Get(p, "customer_id"), Get(p, "seller_id")))
  }

  /** `role_required(requiredRole)`: the token checks first, then the role. */
  function RoleDecision(header: Option<string>, verify: Verifier, requiredRole: string): (o: Outcome)
  {
    match TokenDecision(header, verify)
    case Reject(s, m) => Reject(s, m)
    case Proceed(u) =>
      if u.role != Str(requiredRole) then
        Reject(403, "Access denied. " + requiredRole + " role required")
      else Proceed(u)
  }

  /** No header, or an empty one, is a missing token. */
  lemma MissingHeader(verify: Verifier)
    ensures TokenDecision(None, verify) == Reject(401, "Token is missing")
    ensures TokenDecision(Some(""), verify) == Reject(401, "Token is missing")
  {
  }

  /** A header without a space is malformed, and a header is malformed only
      then. */
  lemma MalformedIffNoSpace(h: string, verify: Verifier)
    requires h != ""
    ensures TokenDecision(Some(h), verify) == Reject(401, "Invalid token format") <==> ' ' !in h
  {
    SplitShape(h);
    if ' ' in h {
      var k :| 0 <= k < |h| && h[k] == ' ';
      SpaceCountPositive(h, k);
    } else {
      SplitWord(h);
    }
  }

  lemma {:induction false} SpaceCountPositive(s: string, k: nat)
    requires k < |s| && s[k] == ' '
    ensures SpaceCount(s) >= 1
    decreases k
  {
    if k > 0 {
      SpaceCountPositive(s[1..], k - 1);
    }
  }

  /** The scheme word is never looked at: any space-free first word gives the
      same answer as `Bearer`, and the token is the piece after it. A bare
      `"Bearer "` is a missing token. */
  lemma SchemeNotChecked(scheme: string, token: string, rest: string, verify: Verifier)
    requires ' ' !in scheme && ' ' !in token
    ensures TokenDecision(Some(scheme + " " + token + rest), verify) ==
            TokenDecision(Some("Bearer " + token + rest), verify)
    ensures rest == [] || rest[0] == ' ' ==>
              SecondWord(scheme + " " + token + rest) == Ok(token)
    ensures TokenDecision(Some("Bearer "), verify) == Reject(401, "Token is missing")
  {
    SchemeWordIgnored(scheme, token, rest, verify);
    TokenAfterScheme(scheme, token, rest);
    BareBearerMissing(verify);
  }

  lemma SchemeWordIgnored(scheme: string, token: string, rest: string, verify: Verifier)
    requires ' ' !in scheme
    ensures TokenDecision(Some(scheme + " " + token + rest), verify) ==
            TokenDecision(Some("Bearer " + token + rest), verify)
  {
    SplitAfterWord(scheme, token + rest);
    assert scheme + " " + token + rest == scheme + " " + (token + rest);
    SplitAfterWord("Bearer", token + rest);
    assert "Bearer " + token + rest == "Bearer" + " " + (token + rest);
  }

  lemma TokenAfterScheme(scheme: string, token: string, rest: string)
    requires ' ' !in scheme && ' ' !in token
    ensures rest == [] || rest[0] == ' ' ==>
              SecondWord(scheme + " " + token + rest) == Ok(token)
  {
    SplitAfterWord(scheme, token + rest);
    assert scheme + " " + token + rest == scheme + " " + (token + rest);
    if rest == [] {
      SplitWord(token);
      assert token + rest == token;
    } else if rest[0] == ' ' {
      SplitAfterWord(token, rest[1..]);
      assert token + rest == token + " " + rest[1..];
    }
  }

  lemma BareBearerMissing(verify: Verifier)
    ensures TokenDecision(Some("Bearer "), verify) == Reject(401, "Token is missing")
  {
    SplitAfterWord("Bearer", "");
    assert "Bearer " == "Bearer" + " " + "";
  }

  /** The handler runs exactly when the header carries a second word that
      the verifier accepts with a non-empty payload, and the recorded caller
      holds exactly the four claims of that payload. */
  lemma ProceedIff(header: Option<string>, verify: Verifier)
    ensures TokenDecision(header, verify).Proceed? <==>
              header.Some? && header.value != "" && SecondWord(header.value).Ok? &&
              SecondWord(header.value).value != "" &&
              verify(SecondWord(header.value).value).Some? &&
              verify(SecondWord(header.value).value).value != map[]
    ensures TokenDecision(header, verify).Proceed? ==>
              var p := verify(SecondWord(header.value).value).value;
              TokenDecision(header, verify).user ==
                CurrentUser(Get(p, "user_id"), Get(p, "role"), Get(p, "customer_id"), Get(p, "seller_id"))
  {
  }

  /** A token rejection passes through `role_required` unchanged; an
      accepted caller with another role, or with no string role, is refused
      with 403; the right role reaches the handler. */
  lemma RoleDecisionCases(header: Option<string>, verify: Verifier, requiredRole: string)
    ensures TokenDecision(header, verify).Reject? ==>
              RoleDecision(header, verify, requiredRole) == TokenDecision(header, verify)
    ensures TokenDecision(header, verify).Proceed? ==>
              var u := TokenDecision(header, verify).user;
              RoleDecision(header, verify, requiredRole) ==
                if u.role == Str(requiredRole) then Proceed(u)
                else Reject(403, "Access denied. " + requiredRole + " role required")
  {
  }

  /** The request the decorators see. */
  class Request {
    const authorization: Option<string>
    var currentUser: Option<CurrentUser>

    constructor (authorization: Option<string>)
      ensures this.authorization == authorization && currentUser == None
    {
      this.authorization := authorization;
      currentUser := None;
    }

    /** `token_required`: on acceptance the caller is recorded on the
        request before the handler runs; a rejection leaves the request as
        it was. */
    method TokenRequired(verify: Verifier) returns (o: Outcome)
      modifies this`currentUser
      ensures o == TokenDecision(authorization, verify)
      ensures o.Proceed? ==> currentUser == Some(o.user)
      ensures o.Reject? ==> currentUser == old(currentUser)
    {
      var token := "";
      if authorization.Some? && authorization.value != "" {
        var parts := Split(authorization.value);
        if |parts| < 2 {
          return Reject(401, "Invalid token format");
        }
        token := parts[1];
      }
      if token == "" {
        return Reject(401, "Token is missing");
      }
      var payload := verify(token);
      if payload == None || payload.value == map[] {
        return Reject(401, "Token is invalid or expired");
      }
      var p := payload.value;
      var user := CurrentUser(Get(p, "user_id"), Get(p, "role"), Get(p, "customer_id"), Get(p, "seller_id"));
      currentUser := Some(user);
      o := Proceed(user);
    }

    /** `role_required`: the caller is recorded whenever the token is
        accepted, even when the role check then refuses the request. */
    method RoleRequired(requiredRole: string, verify: Verifier) returns (o: Outcome)
      modifies this`currentUser
      ensures o == RoleDecision(authorization, verify, requiredRole)
      ensures TokenDecision(authorization, verify).Proceed? ==>
                currentUser == Some(TokenDecision(authorization, verify).user)
      ensures TokenDecision(authorization, verify).Reject? ==> currentUser == old(currentUser)
    {
      o := TokenRequired(verify);
      if o.Proceed? && currentUser.value.role != Str(requiredRole) {
        o := Reject(403, "Access denied. " + requiredRole + " role required");
      }
    }
  }
}
