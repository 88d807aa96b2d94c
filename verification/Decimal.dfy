/** Printing and parsing of unsigned decimal numbers: `%d` and strconv.ParseUint(s, 10, 64). */
module Decimal {
  import opened Uint64
  import opened Wrappers

  predicate IsDigit(c: char) {
    '0' <= c <= '9'
  }

  predicate AllDigits(s: string) {
    forall i :: 0 <= i < |s| ==> IsDigit(s[i])
  }

  function DigitChar(d: nat): (c: char)
    requires d < 10
    ensures IsDigit(c) && c as int - '0' as int == d
  {
    ('0' as int + d) as char
  }

  function Print(n: nat): (s: string)
    ensures s != [] && AllDigits(s)
  {
    if n < 10 then [DigitChar(n)] else Print(n / 10) + [DigitChar(n % 10)]
  }

  function Value(s: string): nat
    requires AllDigits(s)
  {
    if s == [] then 0 else 10 * Value(s[..|s| - 1]) + (s[|s| - 1] as int - '0' as int)
  }

  /** Leading zeros are fine; an empty text, another character or a value over 64 bits is not. */
  function ParseUint(s: string): (r: Option<uint64>) {
    if s != [] && AllDigits(s) && Value(s) < TWO_64 then Some(Value(s)) else None
  }

  lemma {:induction false} ValueOfPrint(n: nat)
    ensures Value(Print(n)) == n
  {
    if n >= 10 {
      ValueOfPrint(n / 10);
      var s := Print(n);
      assert s[..|s| - 1] == Print(n / 10);
    }
  }

  /** Ten digits, most significant first. */
  lemma PrintIsDecimal(n: nat, d: nat)
    requires n > 0 && d < 10
    ensures Print(d) == [DigitChar(d)] && Print(10 * n + d) == Print(n) + Print(d)
  {
    assert (10 * n + d) / 10 == n && (10 * n + d) % 10 == d;
  }

  lemma ParsePrint(n: uint64)
    ensures ParseUint(Print(n)) == Some(n)
  {
    ValueOfPrint(n);
  }
}
