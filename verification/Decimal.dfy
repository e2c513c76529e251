/** Decimal text of a count. */
module Decimal {
  function Digit(d: nat): char
    requires d < 10
  {
    ('0' as int + d) as char
  }

  function Itoa(n: nat): (s: string)
    ensures s != ""
  {
    if n < 10 then [Digit(n)] else Itoa(n / 10) + [Digit(n % 10)]
  }

  function Value(s: string): int {
    if s == "" then 0 else 10 * Value(s[..|s| - 1]) + (s[|s| - 1] as int - '0' as int)
  }

  lemma {:induction false} ValueOfItoa(n: nat)
    ensures Value(Itoa(n)) == n
  {
    var s := Itoa(n);
    if n < 10 {
      assert s[..0] == "" && s[0] == Digit(n);
    } else {
      ValueOfItoa(n / 10);
      assert s[..|s| - 1] == Itoa(n / 10) && s[|s| - 1] == Digit(n % 10);
    }
  }

  /** Different counts have different texts. */
  lemma ItoaInjective(m: nat, n: nat)
    requires Itoa(m) == Itoa(n)
    ensures m == n
  {
    ValueOfItoa(m);
    ValueOfItoa(n);
  }

  /** The text has no leading zero and only digits, most significant one first. */
  lemma {:induction false} ItoaIsDecimal(n: nat)
    ensures n > 0 ==> Itoa(n)[0] != '0'
    ensures forall k :: 0 <= k < |Itoa(n)| ==> '0' <= Itoa(n)[k] <= '9'
  {
    if n >= 10 {
      ItoaIsDecimal(n / 10);
    }
  }
}
