/** Optional values and results shared by every module. */
module Prelude {
  datatype Option<+T> = None | Some(value: T)

  datatype Result<+T, +E> = Ok(value: T) | Err(error: E)

  /** Truth value of an optional string in a condition: absent and empty both count as false. */
  predicate Truthy(s: Option<string>) {
    s.Some? && s.value != ""
  }

  const DIGITS := "0123456789"

  /** Decimal notation of a natural number, without leading zeros. */
  function Digits(n: nat): (text: string)
    ensures text != [] && forall c | c in text :: '0' <= c <= '9'
  {
    if n < 10 then [DIGITS[n]] else Digits(n / 10) + [DIGITS[n % 10]]
  }

  function Decimal(i: int): string {
    if i < 0 then "-" + Digits(-i) else Digits(i)
  }

  /** The number that a text of digits stands for. */
  function NumberOf(text: string): int {
    if text == "" then 0 else 10 * NumberOf(text[..|text| - 1]) + (text[|text| - 1] as int - '0' as int)
  }

  lemma {:induction false} DigitsStandForNumber(n: nat)
    ensures NumberOf(Digits(n)) == n && (n > 0 ==> Digits(n)[0] != '0')
  {
    assert forall i | 0 <= i < 10 :: DIGITS[i] as int == '0' as int + i;
    if n >= 10 {
      DigitsStandForNumber(n / 10);
      assert Digits(n)[..|Digits(n)| - 1] == Digits(n / 10);
    } else {
      assert [DIGITS[n]][..0] == "";
    }
  }

  lemma {:induction false} DigitsInjective(m: nat, n: nat)
    requires Digits(m) == Digits(n)
    ensures m == n
  {
    assert forall i, j | 0 <= i < 10 && 0 <= j < 10 :: DIGITS[i] == DIGITS[j] ==> i == j;
    if 10 <= m && 10 <= n {
      assert Digits(m)[..|Digits(m)| - 1] == Digits(m / 10);
      assert Digits(n)[..|Digits(n)| - 1] == Digits(n / 10);
      DigitsInjective(m / 10, n / 10);
    }
  }
}
