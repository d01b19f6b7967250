// Decimal digit strings.
module Digits {
  import opened Text

  // The decimal digits of n, without leading zeros; "0" for zero.
  function DigitsOf(n: nat): (d: Bytes)
    ensures d != []
    ensures forall i :: 0 <= i < |d| ==> Digit(d[i])
    ensures n > 0 ==> d[0] != 48
  {
    if n < 10 then [48 + n] else DigitsOf(n / 10) + [48 + n % 10]
  }

  predicate AllDigits(d: Bytes) { forall i :: 0 <= i < |d| ==> Digit(d[i]) }

  // The number that digits denote.
  function ValueOf(d: Bytes): nat
    requires AllDigits(d)
  {
    if d == [] then 0 else 10 * ValueOf(d[..|d| - 1]) + (d[|d| - 1] - 48)
  }

  lemma {:induction false} DigitsDenote(n: nat)
    ensures ValueOf(DigitsOf(n)) == n
  {
    if n >= 10 {
      DigitsDenote(n / 10);
      var d := DigitsOf(n);
      assert d[..|d| - 1] == DigitsOf(n / 10);
    } else {
      assert ValueOf(DigitsOf(n)[..0]) == 0;
    }
  }

  function Power10(k: nat): (p: nat)
    ensures p >= 1
  {
    if k == 0 then 1 else 10 * Power10(k - 1)
  }

  // A number below 10^k has at most k digits, and one of k + 1 digits is at least 10^k.
  lemma {:induction false} DigitCount(n: nat, k: nat)
    ensures k > 0 && n < Power10(k) ==> |DigitsOf(n)| <= k
    ensures n >= Power10(k) ==> |DigitsOf(n)| > k
  {
    if k > 0 {
      DigitCount(n / 10, k - 1);
      if n < Power10(k) && k > 1 {
        assert n / 10 < Power10(k - 1);
      }
      if n >= Power10(k) {
        assert n / 10 >= Power10(k - 1);
      }
    }
  }
}
