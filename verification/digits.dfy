/** Numbers as digits, decimal and hexadecimal. */
module Digits {
  predicate IsDigit(c: char) {
    '0' <= c <= '9'
  }

  predicate IsHexDigit(c: char) {
    IsDigit(c) || 'a' <= c <= 'f'
  }

  function DigitValue(c: char): nat
    requires IsHexDigit(c)
  {
    if IsDigit(c) then c as int - '0' as int else c as int - 'a' as int + 10
  }

  function Digit(n: nat): (c: char)
    requires n < 16
    ensures IsHexDigit(c) && DigitValue(c) == n && (n < 10 ==> IsDigit(c))
  {
    if n < 10 then ('0' as int + n) as char else ('a' as int + (n - 10)) as char
  }

  predicate AllHex(s: string) {
    forall k :: 0 <= k < |s| ==> IsHexDigit(s[k])
  }

  predicate AllDigits(s: string) {
    forall k :: 0 <= k < |s| ==> IsDigit(s[k])
  }

  function Value(base: nat, s: string): nat
    requires AllHex(s)
  {
    if s == "" then 0 else Value(base, s[..|s| - 1]) * base + DigitValue(s[|s| - 1])
  }

  /** `n` in `base`, without leading zeros. */
  function Print(base: nat, n: nat): (r: string)
    requires base == 10 || base == 16
    ensures r != "" && AllHex(r) && (base == 10 ==> AllDigits(r))
  {
    if n < base then [Digit(n)] else Print(base, n / base) + [Digit(n % base)]
  }

  lemma {:induction false} PrintValue(base: nat, n: nat)
    requires base == 10 || base == 16
    ensures Value(base, Print(base, n)) == n
  {
    if n >= base {
      PrintValue(base, n / base);
      assert Print(base, n)[..|Print(base, n)| - 1] == Print(base, n / base);
    } else {
      assert Print(base, n)[..0] == "";
    }
  }
}
