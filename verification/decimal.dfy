/** Decimal text for numbers: the `${hour}` template interpolation of the
    dashboard and the text form of timestamps in the persisted blob. */
module Decimal {
  import opened Optional

  predicate IsDigit(c: char) {
    '0' <= c <= '9'
  }

  predicate AllDigits(s: string) {
    forall i :: 0 <= i < |s| ==> IsDigit(s[i])
  }

  function DigitChar(d: nat): (c: char)
    requires d < 10
    ensures IsDigit(c) && c as int - '0' as int == d
  {
    (d + '0' as int) as char
  }

  /** `String(n)` for a non-negative integer: shortest decimal numeral. */
  function NatToText(n: nat): (r: string)
    ensures |r| >= 1 && AllDigits(r)
    ensures r[0] == '0' ==> n == 0
  {
    if n < 10 then [DigitChar(n)] else NatToText(n / 10) + [DigitChar(n % 10)]
  }

  /** Reads a numeral back. */
  function TextToNat(s: string): nat
    requires AllDigits(s)
  {
    if s == [] then 0 else TextToNat(s[..|s| - 1]) * 10 + (s[|s| - 1] as int - '0' as int)
  }

  lemma {:induction false} NatRoundTrip(n: nat)
    ensures TextToNat(NatToText(n)) == n
  {
    if n >= 10 {
      NatRoundTrip(n / 10);
      var r := NatToText(n);
      assert r[..|r| - 1] == NatToText(n / 10);
    }
  }

  /** `String(i)` for any integer: a minus sign before negative values. */
  function IntToText(i: int): (r: string)
    ensures |r| >= 1
    ensures i < 0 <==> r[0] == '-'
  {
    if i < 0 then "-" + NatToText(-i) else NatToText(i)
  }

  /** Parses what `IntToText` writes; anything else is `None`. */
  function TextToInt(s: string): Option<int>
  {
    if |s| >= 2 && s[0] == '-' && AllDigits(s[1..]) then Some(0 - TextToNat(s[1..]) as int)
    else if |s| >= 1 && AllDigits(s) then Some(TextToNat(s))
    else None
  }

  lemma IntRoundTrip(i: int)
    ensures TextToInt(IntToText(i)) == Some(i)
  {
    if i < 0 {
      var t := NatToText(-i);
      var r := "-" + t;
      assert IntToText(i) == r;
      assert r[1..] == t;
      NatRoundTrip(-i);
      assert TextToInt(r) == Some(0 - TextToNat(t) as int);
    } else {
      var t := NatToText(i);
      assert IsDigit(t[0]);
      NatRoundTrip(i);
      assert TextToInt(t) == Some(TextToNat(t));
    }
  }
}
