/** The status badge and the cancel button of the order history page
    (emporia-UI/src/components/pages/OrderHistoryPage.tsx). */
module OrderHistory {

  function UpperChar(c: char): char
  {
    if 'a' <= c <= 'z' then (c as int - 32) as char else c
  }

  function LowerChar(c: char): char
  {
    if 'A' <= c <= 'Z' then (c as int + 32) as char else c
  }

  /** `s.toUpperCase()` on the letters `a`-`z`. */
  function ToUpperCase(s: string): (r: string)
    ensures |r| == |s| && forall i :: 0 <= i < |s| ==> r[i] == UpperChar(s[i])
  {
    seq(|s|, i requires 0 <= i < |s| => UpperChar(s[i]))
  }

  /** `s.toLowerCase()` on the letters `A`-`Z`. */
  function ToLowerCase(s: string): (r: string)
    ensures |r| == |s| && forall i :: 0 <= i < |s| ==> r[i] == LowerChar(s[i])
  {
    seq(|s|, i requires 0 <= i < |s| => LowerChar(s[i]))
  }

  /** `getStatusColor`: the badge colour chosen on the upper-cased status. */
  function StatusColor(status: string): string
  {
    match ToUpperCase(status)
    case "PAID" => "green"
    case "PROCESSING" => "blue"
    case "CANCELLED" => "red"
    case _ => "gray"
  }

  /** The cancel button is disabled for a cancelled order, whatever its case. */
  predicate CancelDisabled(status: string)
  {
    ToLowerCase(status) == "cancelled"
  }

  /** Two statuses that differ only in letter case. */
  predicate SameIgnoringCase(s: string, t: string)
  {
    |s| == |t| && forall i :: 0 <= i < |s| ==> UpperChar(s[i]) == UpperChar(t[i])
  }

  /** The badge ignores letter case. */
  lemma StatusColorIgnoresCase(s: string, t: string)
    requires SameIgnoringCase(s, t)
    ensures StatusColor(s) == StatusColor(t)
  {
    assert ToUpperCase(s) == ToUpperCase(t);
  }

  /** A status is one of the three known ones exactly when its upper-cased
      form is; everything else is gray. */
  lemma StatusColorCases(status: string)
    ensures StatusColor(status) == "green" <==> ToUpperCase(status) == "PAID"
    ensures StatusColor(status) == "blue" <==> ToUpperCase(status) == "PROCESSING"
    ensures StatusColor(status) == "red" <==> ToUpperCase(status) == "CANCELLED"
    ensures StatusColor(status) == "gray" <==>
              ToUpperCase(status) !in {"PAID", "PROCESSING", "CANCELLED"}
  {
  }

  /** The statuses the server writes (`"pending"`, `"paid"`,
      `"cancelled"`) get gray, green and red. */
  lemma ServerStatuses()
    ensures StatusColor("pending") == "gray"
    ensures StatusColor("paid") == "green"
    ensures StatusColor("cancelled") == "red"
    ensures CancelDisabled("cancelled") && !CancelDisabled("paid") && !CancelDisabled("pending")
  {
    assert ToUpperCase("pending") == "PENDING";
    assert ToUpperCase("paid") == "PAID";
    assert ToUpperCase("cancelled") == "CANCELLED";
    assert ToLowerCase("cancelled") == "cancelled";
    assert ToLowerCase("paid")[0] == 'p';
  }

  /** For each letter `x` of the word, a character lower-cases to `x` exactly
      when it upper-cases to the capital of `x`. */
  lemma LowerUpperAgree(c: char, x: char)
    requires 'a' <= x <= 'z'
    ensures LowerChar(c) == x <==> UpperChar(c) == UpperChar(x)
  {
  }

  /** The button is disabled exactly when the badge is red: the lower-case
      and the upper-case comparisons accept the same statuses. */
  lemma CancelDisabledIffRed(status: string)
    ensures CancelDisabled(status) <==> StatusColor(status) == "red"
  {
    var lower := "cancelled";
    var upper := "CANCELLED";
    assert forall i :: 0 <= i < |lower| ==> UpperChar(lower[i]) == upper[i];
    if |status| == |lower| {
      forall i | 0 <= i < |status|
        ensures LowerChar(status[i]) == lower[i] <==> UpperChar(status[i]) == upper[i]
      {
        LowerUpperAgree(status[i], lower[i]);
      }
      if CancelDisabled(status) {
        assert ToUpperCase(status) == upper;
      }
      if ToUpperCase(status) == upper {
        assert ToLowerCase(status) == lower;
      }
    }
    StatusColorCases(status);
  }
}
