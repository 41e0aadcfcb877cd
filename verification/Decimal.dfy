/** Decimal numerals, as `format!("{n}")` prints them. */
module Decimal {

  function Digit(d: nat): char
    requires d < 10
  {
    ('0' as int + d) as char
  }

  function Print(n: nat): string {
    if n < 10 then [Digit(n)] else Print(n / 10) + [Digit(n % 10)]
  }

  function Read(s: string): nat {
    if s == "" then 0
    else
      var last := s[|s| - 1] as int - '0' as int;
      Read(s[..|s| - 1]) * 10 + (if 0 <= last < 10 then last else 0)
  }

  lemma {:induction false} ReadPrint(n: nat)
    ensures Read(Print(n)) == n
  {
    if n >= 10 {
      ReadPrint(n / 10);
      assert Print(n)[..|Print(n)| - 1] == Print(n / 10);
    } else {
      assert Print(n)[..0] == "";
    }
  }

  /** Different numbers print differently. */
  lemma PrintInjective(a: nat, b: nat)
    requires Print(a) == Print(b)
    ensures a == b
  {
    ReadPrint(a);
    ReadPrint(b);
  }
}
