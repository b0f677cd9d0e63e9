/** PHP's conversion of a non-negative integer to a string: its decimal digits,
    without sign or leading zeros. Used for user and gallery ids in folder names
    and for the `(string)` cast of gallery ids in the ownership check. */
module Decimal {

  predicate IsDigit(c: char) {
    '0' <= c <= '9'
  }

  function DigitChar(d: nat): (c: char)
    requires d < 10
    ensures IsDigit(c)
    ensures c as int - '0' as int == d
  {
    "0123456789"[d]
  }

  function NatToString(n: nat): (s: string)
    ensures 1 <= |s|
    ensures forall i :: 0 <= i < |s| ==> IsDigit(s[i])
    ensures n < 10 <==> |s| == 1
    decreases n
  {
    if n < 10 then [DigitChar(n)] else NatToString(n / 10) + [DigitChar(n % 10)]
  }

  /** Different numbers print differently: the decimal rendering is injective. */
  lemma {:induction false} NatToStringInjective(m: nat, n: nat)
    requires NatToString(m) == NatToString(n)
    ensures m == n
  {
    var s := NatToString(m);
    if m < 10 || n < 10 {
      assert |s| == 1;
      assert m < 10 && n < 10;
      assert DigitChar(m) == s[0] == DigitChar(n);
    } else {
      var k := |s| - 1;
      assert NatToString(m) == NatToString(m / 10) + [DigitChar(m % 10)];
      assert NatToString(n) == NatToString(n / 10) + [DigitChar(n % 10)];
      assert DigitChar(m % 10) == s[k] == DigitChar(n % 10);
      assert NatToString(m / 10) == s[..k] == NatToString(n / 10);
      NatToStringInjective(m / 10, n / 10);
    }
  }

  /** Position of the first '/' in a string (its length when there is none). */
  function SlashIndex(s: string): (k: nat)
    ensures k <= |s|
    ensures k < |s| ==> s[k] == '/'
    ensures forall i :: 0 <= i < k ==> s[i] != '/'
  {
    if s == [] then 0 else if s[0] == '/' then 0 else 1 + SlashIndex(s[1..])
  }

  /** A run of digits followed by '/' can be split back at that '/'. */
  lemma {:induction false} SlashAfterDigits(a: string, x: string)
    requires forall i :: 0 <= i < |a| ==> IsDigit(a[i])
    ensures SlashIndex(a + "/" + x) == |a|
  {
    if a != [] {
      assert (a + "/" + x)[1..] == a[1..] + "/" + x;
      SlashAfterDigits(a[1..], x);
    }
  }

  /** Two digit runs each followed by '/' split the same way. */
  lemma DigitsSlashSplit(a: string, x: string, b: string, y: string)
    requires forall i :: 0 <= i < |a| ==> IsDigit(a[i])
    requires forall i :: 0 <= i < |b| ==> IsDigit(b[i])
    requires a + "/" + x == b + "/" + y
    ensures a == b && x == y
  {
    var t := a + "/" + x;
    SlashAfterDigits(a, x);
    SlashAfterDigits(b, y);
    assert a == t[..|a|];
    assert x == t[|a| + 1..];
  }
}
