/** `fmt.Sprintf("%d", n)` and `strconv.ParseInt(s, 10, 64)`, which on a 64-bit
    platform is also `strconv.Atoi`. */
module Decimal {
  import opened Wrappers

  const MIN_INT64: int := -0x8000_0000_0000_0000
  const MAX_INT64: int := 0x7FFF_FFFF_FFFF_FFFF

  predicate IsInt64(n: int) { MIN_INT64 <= n <= MAX_INT64 }

  /** Two's complement truncation to 64 bits. */
  function Wrap64(n: int): int {
    (n + 0x8000_0000_0000_0000) % 0x1_0000_0000_0000_0000 - 0x8000_0000_0000_0000
  }

  lemma WrapInRange(n: int)
    requires IsInt64(n)
    ensures Wrap64(n) == n
  {
  }

  predicate IsDigit(c: char) { '0' <= c <= '9' }

  function Digits(n: nat): string {
    if n < 10 then ['0' + n as char] else Digits(n / 10) + ['0' + (n % 10) as char]
  }

  function Format(n: int): string {
    if n < 0 then "-" + Digits(-n) else Digits(n)
  }

  function Value(digits: string): nat
    requires forall i :: 0 <= i < |digits| ==> IsDigit(digits[i])
  {
    if digits == "" then
      0
    else
      var last := |digits| - 1;
      assert IsDigit(digits[last]);
      10 * Value(digits[..last]) + (digits[last] - '0') as nat
  }

  function Parse(s: string): Option<int> {
    var signed := s != "" && (s[0] == '+' || s[0] == '-');
    var digits := if signed then s[1..] else s;
    if digits == "" || exists i :: 0 <= i < |digits| && !IsDigit(digits[i]) then
      None
    else
      var n := if signed && s[0] == '-' then -(Value(digits) as int) else Value(digits) as int;
      if IsInt64(n) then Some(n) else None
  }

  lemma {:induction false} ValueOfDigits(n: nat)
    ensures Digits(n) != ""
    ensures forall i :: 0 <= i < |Digits(n)| ==> IsDigit(Digits(n)[i])
    ensures Value(Digits(n)) == n
  {
    if n >= 10 {
      ValueOfDigits(n / 10);
      assert Digits(n)[..|Digits(n)| - 1] == Digits(n / 10);
    }
  }

  lemma InFull()
    ensures Format(1234) == "1234" && Format(-120) == "-120"
  {
    assert Digits(1234) == Digits(123) + "4" && Digits(123) == Digits(12) + "3" && Digits(12) == Digits(1) + "2";
    assert Digits(120) == Digits(12) + "0";
  }

  /** What an annotation is written with is what it is read back as. */
  lemma ParseFormat(n: int)
    ensures Parse(Format(n)) == if IsInt64(n) then Some(n) else None
  {
    ValueOfDigits(if n < 0 then -n else n);
    if n < 0 {
      assert Format(n)[1..] == Digits(-n);
    } else {
      assert IsDigit(Digits(n)[0]);
    }
  }
}
