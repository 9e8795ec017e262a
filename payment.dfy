/** The payment service stub (emporia-api/services/payment_services.py):
    every payment succeeds with an id built from the order id and the
    truncated amount, and every refund succeeds. */
module Payment {
  import opened Common

  /** `PaymentResult(success, payment_id=None, error_message=None)`. */
  datatype PaymentResult = PaymentResult(success: bool, paymentId: Option<string>, errorMessage: Option<string>)

  /** `f"PAYMENT-{order_id}-{int(amount)}"`. */
  function PaymentId(orderId: int, amount: real): string
  {
    "PAYMENT-" + IntToString(orderId) + "-" + IntToString(Trunc(amount))
  }

  /** `process_payment(amount, payment_method, order_id)`: always a success
      with an id and without an error message; the method is ignored. */
  function ProcessPayment(amount: real, paymentMethod: string, orderId: int): (r: PaymentResult)
    ensures r.success && r.errorMessage == None && r.paymentId.Some?
    ensures r.paymentId.value == PaymentId(orderId, amount)
  {
    PaymentResult(true, Some(PaymentId(orderId, amount)), None)
  }

  /** `refund_payment(payment_id)` always reports success. */
  function RefundPayment(paymentId: string): (r: bool)
    ensures r
  {
    true
  }

  /** The amount is truncated toward zero, not rounded. */
  lemma PaymentIdTruncates()
    ensures PaymentId(7, 19.99) == "PAYMENT-7-19"
    ensures PaymentId(7, -2.5) == "PAYMENT-7--2"
  {
    assert Trunc(19.99) == 19;
    assert NatToString(19) == NatToString(1) + [DigitChar(9)];
    assert Trunc(-2.5) == -2;
  }

  /** A run of digits ends at the first dash, so it can be read back. */
  lemma DigitsBeforeDash(p: string, a: string, x: string, b: string, y: string)
    requires AllDigits(a) && AllDigits(b) && p + a + "-" + x == p + b + "-" + y
    ensures a == b && x == y
  {
    var l := p + a + "-" + x;
    var r := p + b + "-" + y;
    var k := if |a| < |b| then |a| else |b|;
    assert (l[|p| + k] == '-') == (k == |a|);
    assert (r[|p| + k] == '-') == (k == |b|);
    assert |a| == |b|;
    assert a == l[|p|..|p| + |a|] && b == r[|p|..|p| + |b|];
    assert x == l[|p| + |a| + 1..] && y == r[|p| + |b| + 1..];
  }

  /** Distinct orders, or distinct whole amounts, get distinct ids. */
  lemma PaymentIdInjective(a: int, b: int, x: real, y: real)
    requires a >= 0 && b >= 0 && PaymentId(a, x) == PaymentId(b, y)
    ensures a == b && Trunc(x) == Trunc(y)
  {
    var sa := IntToString(a);
    var sb := IntToString(b);
    var tx := Trunc(x);
    var ty := Trunc(y);
    assert sa == NatToString(a) && sb == NatToString(b);
    NatToStringDigits(a);
    NatToStringDigits(b);
    DigitsBeforeDash("PAYMENT-", sa, IntToString(tx), sb, IntToString(ty));
    IntToStringInjective(a, b);
    IntToStringInjective(tx, ty);
  }
}
