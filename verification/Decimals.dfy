/** Decimal numerals. */
module Decimals {

  predicate IsDigits(s: string) {
    s != "" && forall i :: 0 <= i < |s| ==> '0' <= s[i] <= '9'
  }

  function DecimalValue(s: string): nat
    requires forall i :: 0 <= i < |s| ==> '0' <= s[i] <= '9'
  {
    if s == "" then 0 else 10 * DecimalValue(s[..|s| - 1]) + (s[|s| - 1] as int - '0' as int)
  }

  function DecimalString(n: nat): (s: string)
    ensures IsDigits(s)
  {
    var digit := [(n % 10) as char + '0'];
    if n < 10 then digit else DecimalString(n / 10) + digit
  }

  lemma {:induction false} DecimalRoundTrip(n: nat)
    ensures DecimalValue(DecimalString(n)) == n
  {
    var s := DecimalString(n);
    if n >= 10 {
      DecimalRoundTrip(n / 10);
      assert s[..|s| - 1] == DecimalString(n / 10);
    } else {
      assert s[..|s| - 1] == "";
    }
  }

  /** A numeral read back is the number, and numerals of positive numbers have no leading zero. */
  lemma {:induction false} NoLeadingZero(n: nat)
    ensures n > 0 ==> DecimalString(n)[0] != '0'
    ensures n < 10 ==> |DecimalString(n)| == 1
  {
    if n >= 10 {
      NoLeadingZero(n / 10);
    }
  }
}
