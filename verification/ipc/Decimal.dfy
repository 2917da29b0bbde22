/** Decimal numbers as std::to_string prints them and sscanf's %zu reads them. */
module Decimal {

  predicate IsDigit(c: char) { '0' <= c <= '9' }

  function DigitOf(c: char): nat
    requires IsDigit(c)
  {
    c as int - '0' as int
  }

  function CharOf(d: nat): (c: char)
    requires d < 10
    ensures IsDigit(c) && DigitOf(c) == d
  {
    ['0', '1', '2', '3', '4', '5', '6', '7', '8', '9'][d]
  }

  function Print(n: nat): string {
    if n < 10 then [CharOf(n)] else Print(n / 10) + [CharOf(n % 10)]
  }

  /** Reads digits while there are any, from the value read so far. */
  function ReadFrom(value: nat, s: string): nat
    decreases |s|
  {
    if s != [] && IsDigit(s[0]) then ReadFrom(10 * value + DigitOf(s[0]), s[1..]) else value
  }

  predicate AllDigits(s: string) { forall i :: 0 <= i < |s| ==> IsDigit(s[i]) }

  lemma {:induction false} PrintsDigits(n: nat)
    ensures AllDigits(Print(n)) && Print(n) != []
  {
    if n >= 10 { PrintsDigits(n / 10); }
  }

  lemma {:induction false} ReadDigits(value: nat, s: string, rest: string)
    requires AllDigits(s)
    ensures ReadFrom(value, s + rest) == ReadFrom(ReadFrom(value, s), rest)
    decreases |s|
  {
    if s == [] {
      assert s + rest == rest;
    } else {
      assert (s + rest)[1..] == s[1..] + rest;
      ReadDigits(10 * value + DigitOf(s[0]), s[1..], rest);
    }
  }

  lemma {:induction false} ReadUndoesPrint(n: nat)
    ensures ReadFrom(0, Print(n)) == n
  {
    if n >= 10 {
      PrintsDigits(n / 10);
      ReadUndoesPrint(n / 10);
      ReadDigits(0, Print(n / 10), [CharOf(n % 10)]);
      assert [CharOf(n % 10)][1..] == [];
    }
  }

  lemma {:induction false} ReadGrows(value: nat, s: string)
    ensures ReadFrom(value, s) >= value
    decreases |s|
  {
    if s != [] && IsDigit(s[0]) { ReadGrows(10 * value + DigitOf(s[0]), s[1..]); }
  }

  /** A printed positive number is read back exactly when no further digit follows it. */
  lemma {:induction false} ReadBackIff(n: nat, rest: string)
    requires n > 0
    ensures ReadFrom(0, Print(n) + rest) == n <==> rest == [] || !IsDigit(rest[0])
  {
    PrintsDigits(n);
    ReadDigits(0, Print(n), rest);
    ReadUndoesPrint(n);
    if rest != [] && IsDigit(rest[0]) {
      ReadGrows(10 * n + DigitOf(rest[0]), rest[1..]);
    }
  }
}
