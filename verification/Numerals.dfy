/** Decimal numerals. */
module Numerals {

  const DIGITS := ['0', '1', '2', '3', '4', '5', '6', '7', '8', '9']

  function Decimal(n: nat): string {
    if n < 10 then [DIGITS[n]] else Decimal(n / 10) + [DIGITS[n % 10]]
  }

  ghost function Reading(s: string): nat {
    if s == [] then 0 else 10 * Reading(s[..|s| - 1]) + DigitValue(s[|s| - 1])
  }

  ghost function DigitValue(c: char): nat {
    if '0' <= c <= '9' then (c - '0') as nat else 0
  }

  lemma {:induction false} ReadingDecimal(n: nat)
    ensures Reading(Decimal(n)) == n
  {
    if n < 10 {
      assert [DIGITS[n]][..0] == [];
    } else {
      ReadingDecimal(n / 10);
      assert (Decimal(n / 10) + [DIGITS[n % 10]])[..|Decimal(n / 10)|] == Decimal(n / 10);
    }
  }
}
