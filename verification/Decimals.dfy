/** Decimal numerals, as std::to_string prints them. */
module Decimals {

  function Digit(d: nat): char
    requires d < 10
  {
    '0' + d as char
  }

  function Decimal(n: int): string
    decreases n < 0, if n < 0 then -n else n
  {
    if n < 0 then "-" + Decimal(-n) else if n < 10 then [Digit(n)] else Decimal(n / 10) + [Digit(n % 10)]
  }

  lemma {:induction false} DecimalInjective(i: nat, j: nat)
    requires Decimal(i) == Decimal(j)
    ensures i == j
  {
    var (a, b) := (Decimal(i), Decimal(j));
    assert a[|a| - 1] == b[|b| - 1];
    if i >= 10 && j >= 10 {
      assert a[..|a| - 1] == Decimal(i / 10) && b[..|b| - 1] == Decimal(j / 10);
      DecimalInjective(i / 10, j / 10);
    } else {
      DecimalNonempty(i / 10);
      DecimalNonempty(j / 10);
    }
  }

  lemma DecimalNonempty(i: nat)
    ensures |Decimal(i)| >= 1
  {
  }

  lemma {:induction false} DecimalWidth(n: nat, digits: nat, bound: nat)
    requires n < bound && bound == PowerOfTen(digits) && digits >= 1
    ensures |Decimal(n)| <= digits
  {
    if n >= 10 {
      assert digits >= 2;
      DecimalWidth(n / 10, digits - 1, PowerOfTen(digits - 1));
    }
  }

  function PowerOfTen(e: nat): nat { if e == 0 then 1 else 10 * PowerOfTen(e - 1) }
}
