/** User registration checks (emporia-api/services/user_services.py):
    `_validate_user` over the registration dictionary and the
    exception-swallowing `register_user`. The dictionary maps field names to
    strings; the user creation, password hashing, printing and database
    steps after validation are not part of this model, so what creation
    yields is a parameter. */
module UserValidation {
  import opened Common

  /** The `user_data` dictionary. */
  type UserData = map<string, string>

  /** The fields `_validate_user` checks first, in order. */
  const RequiredFields: seq<string> := ["user_type", "first_name", "user_name", "email", "password"]

  /** No '@' at the positions `lo` to `hi - 1` of `s`. */
  predicate NoAt(s: string, lo: int, hi: int)
  {
    forall k :: lo <= k < hi && 0 <= k < |s| ==> s[k] != '@'
  }

  /** What `re.match(r"[^@]+@[^@]+\.[^@]+", s)` accepts: a prefix made of a
      non-empty run without '@', an '@', a non-empty run without '@', a dot
      and one more character that is not '@'. The third run needs only its
      first character, since the match need not reach the end. */
  ghost predicate EmailPattern(s: string)
  {
    exists i, j :: EmailAt(s, i, j)
  }

  /** The pattern matched with its '@' at `i` and its dot at `j`. */
  predicate EmailAt(s: string, i: int, j: int)
  {
    1 <= i && i + 2 <= j && j + 1 < |s| && NoAt(s, 0, i) && s[i] == '@' &&
    NoAt(s, i + 1, j) && s[j] == '.' && s[j + 1] != '@'
  }

  /** The index of the first '@' from position `k` on. */
  function FirstAtFrom(s: string, k: nat): (r: Option<nat>)
    requires k <= |s|
    ensures r.Some? ==> k <= r.value < |s| && s[r.value] == '@' && NoAt(s, k, r.value)
    ensures r.None? ==> NoAt(s, k, |s|)
    decreases |s| - k
  {
    if k == |s| then None
    else if s[k] == '@' then Some(k)
    else FirstAtFrom(s, k + 1)
  }

  /** Searches, from position `j` on and without crossing an '@', for a dot
      followed by a character other than '@'. */
  function ScanDot(s: string, j: nat): bool
    decreases |s| - j
  {
    if j >= |s| then false
    else if s[j] == '@' then false
    else if s[j] == '.' && j + 1 < |s| && s[j + 1] != '@' then true
    else ScanDot(s, j + 1)
  }

  /** The matcher: the first run ends at the first '@', the second run
      needs one character before the search for the dot starts. */
  function EmailMatches(s: string): bool
  {
    match FirstAtFrom(s, 0)
    case None => false
    case Some(i) => 1 <= i && i + 1 < |s| && s[i + 1] != '@' && ScanDot(s, i + 2)
  }

  lemma {:induction false} ScanDotWitness(s: string, lo: int, j: nat)
    requires ScanDot(s, j) && lo <= j && NoAt(s, lo, j)
    ensures exists d :: j <= d && d + 1 < |s| && NoAt(s, lo, d) && s[d] == '.' && s[d + 1] != '@'
    decreases |s| - j
  {
    if s[j] == '.' && j + 1 < |s| && s[j + 1] != '@' {
      assert NoAt(s, lo, j);
    } else {
      ScanDotWitness(s, lo, j + 1);
    }
  }

  lemma {:induction false} ScanDotFinds(s: string, j: nat, d: nat)
    requires j <= d && d + 1 < |s| && NoAt(s, j, d) && s[d] == '.' && s[d + 1] != '@'
    ensures ScanDot(s, j)
    decreases d - j
  {
    if j < d {
      assert s[j] != '@';
      ScanDotFinds(s, j + 1, d);
    }
  }

  /** The matcher accepts exactly the strings the pattern describes. */
  lemma EmailMatchesSpec(s: string)
    ensures EmailMatches(s) <==> EmailPattern(s)
  {
    var f := FirstAtFrom(s, 0);
    if EmailMatches(s) {
      var i := f.value;
      ScanDotWitness(s, i + 1, i + 2);
      var d :| i + 2 <= d && d + 1 < |s| && NoAt(s, i + 1, d) && s[d] == '.' && s[d + 1] != '@';
      assert EmailAt(s, i, d);
    }
    if EmailPattern(s) {
      var i, d :| EmailAt(s, i, d);
      FirstAtFromIs(s, 0, i);
      ScanDotFinds(s, i + 2, d);
    }
  }

  lemma {:induction false} FirstAtFromIs(s: string, k: nat, i: nat)
    requires k <= i < |s| && NoAt(s, k, i) && s[i] == '@'
    ensures FirstAtFrom(s, k) == Some(i)
    decreases i - k
  {
    if k < i {
      assert s[k] != '@';
      FirstAtFromIs(s, k + 1, i);
    }
  }

  /** Since only a prefix has to match, characters after a matching address
      never make it invalid. */
  lemma EmailPatternExtends(s: string, rest: string)
    requires EmailPattern(s)
    ensures EmailPattern(s + rest)
  {
    var i, d :| EmailAt(s, i, d);
    var t := s + rest;
    NoAtPrefix(s, rest, 0, i);
    NoAtPrefix(s, rest, i + 1, d);
    assert t[i] == '@' && t[d] == '.' && t[d + 1] != '@';
    assert EmailAt(t, i, d);
  }

  lemma NoAtPrefix(s: string, rest: string, lo: int, hi: int)
    requires hi <= |s| && NoAt(s, lo, hi)
    ensures NoAt(s + rest, lo, hi)
  {
    forall k | lo <= k < hi && 0 <= k < |s + rest|
      ensures (s + rest)[k] != '@'
    {
      assert (s + rest)[k] == s[k];
    }
  }

  /** The loop over the required fields: the first one missing. */
  function FirstMissing(fields: seq<string>, d: UserData): Option<string>
  {
    if fields == [] then None
    else if fields[0] !in d then Some(fields[0])
    else FirstMissing(fields[1..], d)
  }

  /** The loop reports nothing exactly when every field is present, and
      otherwise a missing field all of whose predecessors are present. */
  lemma {:induction false} FirstMissingSpec(fields: seq<string>, d: UserData)
    ensures FirstMissing(fields, d).None? <==> forall i :: 0 <= i < |fields| ==> fields[i] in d
    ensures FirstMissing(fields, d).Some? ==>
              exists k :: 0 <= k < |fields| && fields[k] == FirstMissing(fields, d).value && fields[k] !in d &&
                          forall i :: 0 <= i < k ==> fields[i] in d
  {
    if fields != [] && fields[0] in d {
      var tail := fields[1..];
      FirstMissingSpec(tail, d);
      if FirstMissing(tail, d).Some? {
        var k :| 0 <= k < |tail| && tail[k] == FirstMissing(tail, d).value && tail[k] !in d &&
                 forall i :: 0 <= i < k ==> tail[i] in d;
        assert fields[k + 1] == tail[k];
        assert forall i :: 0 <= i < k + 1 ==> fields[i] in d by {
          forall i | 0 <= i < k + 1
            ensures fields[i] in d
          {
            if i > 0 {
              assert fields[i] == tail[i - 1];
            }
          }
        }
      } else {
        forall i | 0 <= i < |fields|
          ensures fields[i] in d
        {
          if i > 0 {
            assert fields[i] == tail[i - 1];
          }
        }
      }
    }
  }

  /** `str(KeyError(key))`: the key in quotes. */
  function KeyErrorMessage(key: string): string
  {
    "'" + key + "'"
  }

  /** `_validate_user(user_data)`: the required fields, then the email, the
      password length, the role-specific fields and the admin check. `role`
      and `permissions` are looked up without a check, so their absence
      raises a `KeyError`. */
  function ValidateUser(d: UserData): Result<()>
  {
    match FirstMissing(RequiredFields, d)
    case Some(f) => Err("Missing required field: " + f)
    case None =>
      FirstMissingSpec(RequiredFields, d);
      assert RequiredFields[3] in d;
      if !EmailMatches(d["email"]) then Err("Invalid email format")
      else if "password" !in d then Err("Password is required")
      else if |d["password"]| < 8 then Err("Password must be at least 8 characters")
      else if "role" !in d then Err(KeyErrorMessage("role"))
      else if d["role"] == "customer" && "address" !in d then Err("Address is required for customers")
      else if d["role"] == "customer" && "phone" !in d then Err("Phone is required for customers")
      else if d["role"] == "seller" && "store_name" !in d then Err("Store Name is required for sellers")
      else if d["role"] == "seller" && "store_desc" !in d then Err("Store Description is required for sellers")
      else if "permissions" !in d then Err(KeyErrorMessage("permissions"))
      else if d["permissions"] == "admin" && "permissions" !in d then Err("Permissions are required for admins")
      else Ok(())
  }

  /** Validation passes exactly for a dictionary with every required field,
      an address the pattern accepts, a password of eight characters or
      more, a role, the fields that role needs and a `permissions` entry. */
  lemma ValidateUserSpec(d: UserData)
    ensures ValidateUser(d).Ok? <==>
              (forall i :: 0 <= i < |RequiredFields| ==> RequiredFields[i] in d) &&
              "email" in d && "password" in d &&
              EmailPattern(d["email"]) && |d["password"]| >= 8 && "role" in d &&
              (d["role"] == "customer" ==> "address" in d && "phone" in d) &&
              (d["role"] == "seller" ==> "store_name" in d && "store_desc" in d) &&
              "permissions" in d
  {
    FirstMissingSpec(RequiredFields, d);
    if forall i :: 0 <= i < |RequiredFields| ==> RequiredFields[i] in d {
      assert RequiredFields[3] in d;
      EmailMatchesSpec(d["email"]);
    }
  }

  /** A missing field is reported by the first one missing in the order
      user_type, first_name, user_name, email, password. */
  lemma MissingFieldFirst(d: UserData, k: nat)
    requires k < |RequiredFields| && RequiredFields[k] !in d
    requires forall i :: 0 <= i < k ==> RequiredFields[i] in d
    ensures ValidateUser(d) == Err("Missing required field: " + RequiredFields[k])
  {
    FirstMissingSpec(RequiredFields, d);
    var r := FirstMissing(RequiredFields, d);
    var m :| 0 <= m < |RequiredFields| && RequiredFields[m] == r.value && r.value !in d &&
             forall i :: 0 <= i < m ==> RequiredFields[i] in d;
  }

  /** The "Password is required" and "Permissions are required for admins"
      branches are dead: the password is a required field, and the admin
      check runs only after `permissions` was found. */
  lemma DeadBranches(d: UserData)
    ensures ValidateUser(d) != Err("Password is required")
    ensures ValidateUser(d) != Err("Permissions are required for admins")
  {
    FirstMissingSpec(RequiredFields, d);
    if FirstMissing(RequiredFields, d).None? {
      assert RequiredFields[4] == "password";
    }
  }

  /** What raises inside `register_user`'s `try`: validation's message, or
      the call `UserFactory.create_user(...)`. That call raises for every
      input: the imported name `UserFactory` is the package
      `factories.UserFactory`, which has no `create_user`; on the class
      itself `create_user` would still need an instance, and the registered
      creators take no `user_type` keyword. */
  datatype Raised = ValidationError(msg: string) | CreateUserError

  /** What `register_user` prints in its handler and what it returns. */
  datatype Registration = Registration(raised: Raised, userId: Option<int>)

  /** `register_user(user_data)`: validation, then the creation call; the
      handler catches what either raises, prints it and returns `None`. The
      lines after the creation call are never reached. */
  function RegisterUser(d: UserData): (r: Registration)
    ensures r.raised.ValidationError? <==> ValidateUser(d).Err?
    ensures r.raised.ValidationError? ==> r.raised.msg == ValidateUser(d).msg
  {
    match ValidateUser(d)
    case Err(m) => Registration(ValidationError(m), None)
    case Ok(_) => Registration(CreateUserError, None)
  }

  /** Registration never returns an id: data that fails validation stops
      there, and valid data reaches the creation call, which raises. */
  lemma RegisterNeverReturnsId(d: UserData)
    ensures RegisterUser(d).userId == None
    ensures ValidateUser(d).Ok? ==> RegisterUser(d).raised == CreateUserError
  {
  }

  /** Data missing a field prints the first missing one in the order
      user_type, first_name, user_name, email, password. */
  lemma RegisterMissingField(d: UserData, k: nat)
    requires k < |RequiredFields| && RequiredFields[k] !in d
    requires forall i :: 0 <= i < k ==> RequiredFields[i] in d
    ensures RegisterUser(d) == Registration(ValidationError("Missing required field: " + RequiredFields[k]), None)
  {
    MissingFieldFirst(d, k);
  }

  lemma EmailExamples()
    ensures EmailMatches("a@b.c")
    ensures EmailMatches("jo@shop.example.com>")
    ensures !EmailMatches("a@b")
    ensures !EmailMatches("@b.c")
    ensures !EmailMatches("a@.c")
    ensures !EmailMatches("a@b.@")
  {
    EmailsAccepted();
    EmailsRejected();
  }

  lemma EmailsAccepted()
    ensures EmailMatches("a@b.c")
    ensures EmailMatches("jo@shop.example.com>")
  {
    assert FirstAtFrom("a@b.c", 0) == Some(1);
    LongEmailAccepted();
  }

  lemma LongEmailAccepted()
    ensures EmailMatches("jo@shop.example.com>")
  {
    assert FirstAtFrom("jo@shop.example.com>", 0) == Some(2);
    assert ScanDot("jo@shop.example.com>", 4);
  }

  lemma EmailsRejected()
    ensures !EmailMatches("a@b")
    ensures !EmailMatches("@b.c")
    ensures !EmailMatches("a@.c")
    ensures !EmailMatches("a@b.@")
  {
    assert FirstAtFrom("a@b", 0) == Some(1);
    assert FirstAtFrom("@b.c", 0) == Some(0);
    assert FirstAtFrom("a@.c", 0) == Some(1);
    assert FirstAtFrom("a@b.@", 0) == Some(1);
  }
}
