/** Decimal numerals of non-negative integers, as `Number.prototype.toString()` and
    template literals write them, with the parse-back that shows the numeral is faithful. */
module Decimal {

  predicate IsDigit(c: char) {
    '0' <= c <= '9'
  }

  predicate IsDigits(s: string) {
    forall i :: 0 <= i < |s| ==> IsDigit(s[i])
  }

  function Digit(d: nat): (c: char)
    requires d < 10
    ensures IsDigit(c)
    ensures c as int - '0' as int == d
  {
    ('0' as int + d) as char
  }

  /** The shortest decimal numeral of `n`: digits only, and no leading zero unless `n` is 0. */
  function NatToString(n: nat): (s: string)
    ensures |s| > 0 && IsDigits(s)
    ensures s[0] == '0' ==> n == 0
    decreases n
  {
    if n < 10 then [Digit(n)] else NatToString(n / 10) + [Digit(n % 10)]
  }

  /** The number a string of digits denotes, most significant digit first. */
  function Value(s: string): nat
    requires IsDigits(s)
  {
    if s == [] then 0
    else Value(s[..|s| - 1]) * 10 + (s[|s| - 1] as int - '0' as int)
  }

  /** Reading the numeral back gives the number. */
  lemma {:induction false} ValueOfNatToString(n: nat)
    ensures Value(NatToString(n)) == n
    decreases n
  {
    var s := NatToString(n);
    if n < 10 {
      assert s[..|s| - 1] == [];
    } else {
      var t := NatToString(n / 10);
      assert s == t + [Digit(n % 10)];
      assert s[..|s| - 1] == t;
      ValueOfNatToString(n / 10);
    }
  }

  /** Distinct numbers have distinct numerals. */
  lemma NatToStringInjective(a: nat, b: nat)
    ensures NatToString(a) == NatToString(b) ==> a == b
  {
    ValueOfNatToString(a);
    ValueOfNatToString(b);
  }
}
