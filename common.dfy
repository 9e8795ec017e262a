/** Values shared by every part of the model: optional values, results that
    carry an exception message, substring search and the decimal rendering of
    integers that Python's `str` and JavaScript's `toString` produce. */
module Common {

  datatype Option<T> = None | Some(value: T)

  /** The outcome of a call that may raise: `Err` carries the message that
      `str(e)` would give. */
  datatype Result<T> = Ok(value: T) | Err(msg: string)

  /** `pat in s` for strings (Python) / `s.includes(pat)` (JavaScript). */
  predicate Contains(s: string, pat: string)
  {
    exists i :: 0 <= i <= |s| && pat <= s[i..]
  }

  lemma ContainsAt(s: string, pat: string, i: nat)
    requires i + |pat| <= |s| && s[i..i + |pat|] == pat
    ensures Contains(s, pat)
  {
    assert pat <= s[i..];
  }

  /** A pattern holding a character that the text lacks cannot occur in it. */
  lemma AbsentCharNotContained(s: string, pat: string, c: char)
    requires c in pat && c !in s
    ensures !Contains(s, pat)
  {
    var k :| 0 <= k < |pat| && pat[k] == c;
    forall i | 0 <= i <= |s|
      ensures !(pat <= s[i..])
    {
      if k < |s| - i {
        assert s[i..][k] == s[i + k] != c;
      }
    }
  }

  /** A pattern whose character `pat[j]` occurs in the text only once, at
      `|a|`, could only occur starting at `|a| - j`; a mismatch at one later
      position `k` of the pattern rules that out. */
  lemma PinnedCharNotContained(a: string, c: char, rest: string, pat: string, j: nat, k: nat)
    requires j < k < |pat| && pat[j] == c && c !in a && c !in rest
    requires k - j - 1 < |rest| ==> rest[k - j - 1] != pat[k]
    ensures !Contains(a + [c] + rest, pat)
  {
    var s := a + [c] + rest;
    forall i | 0 <= i <= |s|
      ensures !(pat <= s[i..])
    {
      if i + |pat| <= |s| {
        if i + j < |a| {
          assert s[i..][j] == a[i + j];
        } else if i + j > |a| {
          assert s[i..][j] == rest[i + j - |a| - 1];
        } else {
          assert s[i..][k] == rest[k - j - 1];
        }
      }
    }
  }

  /** `pat` occurs at the end of `a + pat`. */
  lemma ContainsAtEnd(a: string, pat: string)
    ensures Contains(a + pat, pat)
  {
    var s := a + pat;
    assert s[|a|..] == pat;
  }

  /** `pat` occurs in `a + pat + b + c` whatever surrounds it. */
  lemma ContainsBetween(a: string, pat: string, b: string, c: string)
    ensures Contains(a + pat + b + c, pat)
  {
    var s := a + pat + b + c;
    assert s[|a|..|a| + |pat|] == pat;
    ContainsAt(s, pat, |a|);
  }

  /** An occurrence in the tail is an occurrence in the whole. */
  lemma ContainsInSuffix(a: string, b: string, pat: string)
    requires Contains(b, pat)
    ensures Contains(a + b, pat)
  {
    var i :| 0 <= i <= |b| && pat <= b[i..];
    assert (a + b)[|a| + i..] == b[i..];
  }

  predicate IsDigit(c: char) { '0' <= c <= '9' }

  function DigitChar(d: nat): (c: char)
    requires d < 10
    ensures IsDigit(c)
  {
    ['0', '1', '2', '3', '4', '5', '6', '7', '8', '9'][d]
  }

  /** Decimal digits of a natural number, most significant first, without
      leading zeros. */
  function NatToString(n: nat): (s: string)
    decreases n
  {
    if n < 10 then [DigitChar(n)] else NatToString(n / 10) + [DigitChar(n % 10)]
  }

  /** `str(n)` in Python and `n.toString()` in JavaScript for an integer. */
  function IntToString(n: int): string
  {
    if n < 0 then "-" + NatToString(-n) else NatToString(n)
  }

  predicate AllDigits(s: string)
  {
    forall i :: 0 <= i < |s| ==> IsDigit(s[i])
  }

  lemma {:induction false} NatToStringDigits(n: nat)
    ensures |NatToString(n)| > 0 && AllDigits(NatToString(n))
    decreases n
  {
    if n >= 10 {
      NatToStringDigits(n / 10);
    }
  }

  /** A rendered integer uses only digits and the minus sign. */
  lemma IntToStringChars(n: int, c: char)
    requires c in IntToString(n)
    ensures IsDigit(c) || c == '-'
  {
    NatToStringDigits(if n < 0 then -n else n);
  }

  /** The value of a non-empty string of decimal digits. */
  function DecimalValue(s: string): nat
    requires AllDigits(s)
  {
    if s == [] then 0 else DecimalValue(s[..|s| - 1]) * 10 + (s[|s| - 1] as int - '0' as int)
  }

  lemma {:induction false} DecimalValueOfNatToString(n: nat)
    ensures AllDigits(NatToString(n)) && DecimalValue(NatToString(n)) == n
    decreases n
  {
    NatToStringDigits(n);
    if n >= 10 {
      DecimalValueOfNatToString(n / 10);
      var s := NatToString(n);
      assert s[..|s| - 1] == NatToString(n / 10);
    } else {
      var s := NatToString(n);
      assert s[..0] == [];
    }
  }

  /** Different natural numbers render differently. */
  lemma NatToStringInjective(m: nat, n: nat)
    requires NatToString(m) == NatToString(n)
    ensures m == n
  {
    DecimalValueOfNatToString(m);
    DecimalValueOfNatToString(n);
  }

  /** Different integers render differently. */
  lemma IntToStringInjective(m: int, n: int)
    requires IntToString(m) == IntToString(n)
    ensures m == n
  {
    NatToStringDigits(if m < 0 then -m else m);
    NatToStringDigits(if n < 0 then -n else n);
    assert (IntToString(m)[0] == '-') == (m < 0);
    assert (IntToString(n)[0] == '-') == (n < 0);
    if m < 0 {
      assert NatToString(-m) == IntToString(m)[1..];
      assert NatToString(-n) == IntToString(n)[1..];
      NatToStringInjective(-m, -n);
    } else {
      NatToStringInjective(m, n);
    }
  }

  /** Python's `int(x)` on a float: truncation toward zero. */
  function Trunc(x: real): (r: int)
    ensures 0.0 <= x ==> r as real <= x < r as real + 1.0
    ensures x < 0.0 ==> r as real - 1.0 < x <= r as real
  {
    if x >= 0.0 then x.Floor else -((-x).Floor)
  }
}
