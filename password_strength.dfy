/** The strength meter of the registration form
    (emporia-UI/src/components/pages/RegistrationRouter.tsx,
    `calculatePasswordStrength`). */
module PasswordStrength {

  /** `/[a-z]/.test(p)` */
  predicate HasLower(p: string) { exists i :: 0 <= i < |p| && 'a' <= p[i] <= 'z' }

  /** `/[A-Z]/.test(p)` */
  predicate HasUpper(p: string) { exists i :: 0 <= i < |p| && 'A' <= p[i] <= 'Z' }

  /** `/[0-9]/.test(p)` */
  predicate HasDigit(p: string) { exists i :: 0 <= i < |p| && '0' <= p[i] <= '9' }

  predicate IsAlphanumeric(c: char)
  {
    'a' <= c <= 'z' || 'A' <= c <= 'Z' || '0' <= c <= '9'
  }

  /** `/[^A-Za-z0-9]/.test(p)` */
  predicate HasSpecial(p: string) { exists i :: 0 <= i < |p| && !IsAlphanumeric(p[i]) }

  function Indicator(b: bool): nat { if b then 1 else 0 }

  function Min(a: nat, b: nat): nat { if a <= b then a else b }

  /** The meter's level: 0 below eight characters; otherwise one point for
      the length, one for mixing lower and upper case, one for a digit and
      one for any other character, capped at 4. */
  function Strength(p: string): (r: nat)
    ensures r <= 4
    ensures |p| < 8 ==> r == 0
    ensures |p| >= 8 ==> r >= 1
  {
    if |p| < 8 then 0
    else
      var strength := Indicator(|p| >= 8) + Indicator(HasLower(p) && HasUpper(p))
                      + Indicator(HasDigit(p)) + Indicator(HasSpecial(p));
      Min(strength, 4)
  }

  /** The cap at 4 never bites: from eight characters on, the level is
      exactly one plus the number of the three character criteria met. */
  lemma StrengthIsCriteriaCount(p: string)
    requires |p| >= 8
    ensures Strength(p) == 1 + Indicator(HasLower(p) && HasUpper(p))
                             + Indicator(HasDigit(p)) + Indicator(HasSpecial(p))
  {
  }

  /** One letter case alone earns nothing for mixed case. */
  lemma SingleCaseEarnsNoMixedCredit(p: string)
    requires !HasUpper(p) || !HasLower(p)
    ensures Strength(p) <= 3
    ensures |p| >= 8 ==> Strength(p) == 1 + Indicator(HasDigit(p)) + Indicator(HasSpecial(p))
  {
  }

  /** The top level is reached exactly when every criterion is met. */
  lemma TopLevelIff(p: string)
    ensures Strength(p) == 4 <==>
              |p| >= 8 && HasLower(p) && HasUpper(p) && HasDigit(p) && HasSpecial(p)
  {
  }

  /** Appending characters never lowers the level: every criterion the
      shorter password meets, the longer one meets. */
  lemma StrengthMonotoneUnderAppend(p: string, q: string)
    ensures Strength(p) <= Strength(p + q)
  {
    var s := p + q;
    if HasLower(p) {
      var i :| 0 <= i < |p| && 'a' <= p[i] <= 'z';
      assert s[i] == p[i];
    }
    if HasUpper(p) {
      var i :| 0 <= i < |p| && 'A' <= p[i] <= 'Z';
      assert s[i] == p[i];
    }
    if HasDigit(p) {
      var i :| 0 <= i < |p| && '0' <= p[i] <= '9';
      assert s[i] == p[i];
    }
    if HasSpecial(p) {
      var i :| 0 <= i < |p| && !IsAlphanumeric(p[i]);
      assert s[i] == p[i];
    }
  }

  /** Two sample passwords: eight lower-case letters score 1, and a
      password meeting every criterion scores 4. */
  lemma Samples()
    ensures Strength("password") == 1
    ensures Strength("Passw0rd!") == 4
  {
    var weak := "password";
    assert !HasUpper(weak) by {
      forall i | 0 <= i < |weak| ensures !('A' <= weak[i] <= 'Z') {}
    }
    assert !HasDigit(weak) by {
      forall i | 0 <= i < |weak| ensures !('0' <= weak[i] <= '9') {}
    }
    assert !HasSpecial(weak) by {
      forall i | 0 <= i < |weak| ensures IsAlphanumeric(weak[i]) {}
    }
    var strong := "Passw0rd!";
    assert 'a' <= strong[1] <= 'z' && 'A' <= strong[0] <= 'Z';
    assert '0' <= strong[5] <= '9' && !IsAlphanumeric(strong[8]);
  }
}
