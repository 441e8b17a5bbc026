/** Decimal numerals, as `f"{n}"` prints them and `int(...)` reads them. */
module Decimal {
  import opened Prelude

  /** The zeros of the decimal digit blocks beyond ASCII, as Unicode 14 has them; a block is ten characters long. */
  const OtherZeros: seq<int> := [
    0x660, 0x6F0, 0x7C0, 0x966, 0x9E6, 0xA66, 0xAE6, 0xB66, 0xBE6, 0xC66, 0xCE6, 0xD66, 0xDE6, 0xE50, 0xED0, 0xF20,
    0x1040, 0x1090, 0x17E0, 0x1810, 0x1946, 0x19D0, 0x1A80, 0x1A90, 0x1B50, 0x1BB0, 0x1C40, 0x1C50, 0xA620, 0xA8D0,
    0xA900, 0xA9D0, 0xA9F0, 0xAA50, 0xABF0, 0xFF10, 0x104A0, 0x10D30, 0x11066, 0x110F0, 0x11136, 0x111D0, 0x112F0,
    0x11450, 0x114D0, 0x11650, 0x116C0, 0x11730, 0x118E0, 0x11950, 0x11C50, 0x11D50, 0x11DA0, 0x16A60, 0x16AC0,
    0x16B50, 0x1D7CE, 0x1D7D8, 0x1D7E2, 0x1D7EC, 0x1D7F6, 0x1E140, 0x1E2F0, 0x1E950, 0x1FBF0
  ]

  /** The digit that `c` is in the blocks that start at `zeros`, -1 if it is none. */
  function DigitIn(zeros: seq<int>, c: int): (d: int)
    ensures -1 <= d <= 9
  {
    if zeros == [] then -1
    else if zeros[0] <= c < zeros[0] + 10 then c - zeros[0]
    else DigitIn(zeros[1..], c)
  }

  /** The decimal value of a character, -1 if it has none. */
  function DigitValue(c: char): (d: int)
    ensures -1 <= d <= 9
  {
    if c as int < 0x80 then
      if '0' <= c <= '9' then c as int - '0' as int else -1
    else DigitIn(OtherZeros, c as int)
  }

  /** `\d` of a text pattern: a decimal digit of any script. */
  predicate IsDigit(c: char) {
    DigitValue(c) >= 0
  }

  /** A run of digits, possibly empty. */
  predicate AllDigits(s: string) {
    forall i :: 0 <= i < |s| ==> IsDigit(s[i])
  }

  function Digit(n: nat): (c: char)
    requires n < 10
    ensures DigitValue(c) == n && c as int == '0' as int + n
  {
    '0' + n as char
  }

  /** The numeral of `n`, without leading zeros. */
  function Print(n: nat): (s: string)
    ensures s != [] && AllDigits(s)
  {
    if n < 10 then [Digit(n)] else Print(n / 10) + [Digit(n % 10)]
  }

  /** The value of a run of digits, leading zeros allowed. */
  function Value(s: string): nat
    requires AllDigits(s)
  {
    if s == [] then 0 else 10 * Value(s[..|s| - 1]) + DigitValue(s[|s| - 1])
  }

  /** A numeral has ASCII digits only and no leading zeros. */
  lemma {:induction false} PrintPlain(n: nat)
    ensures forall i :: 0 <= i < |Print(n)| ==> '0' <= Print(n)[i] <= '9'
    ensures Print(n)[0] == '0' ==> n == 0 && Print(n) == "0"
  {
    if n >= 10 {
      PrintPlain(n / 10);
      assert Print(n)[0] == Print(n / 10)[0];
    }
  }

  lemma {:induction false} ValuePrint(n: nat)
    ensures Value(Print(n)) == n
  {
    if n >= 10 {
      ValuePrint(n / 10);
      assert Print(n)[..|Print(n)| - 1] == Print(n / 10);
    } else {
      assert Print(n)[..0] == [];
    }
  }

  /** How many digits `s` starts with. */
  function Leading(s: string): (k: nat)
    ensures k <= |s| && AllDigits(s[..k])
    ensures k < |s| ==> !IsDigit(s[k])
  {
    if s == [] || !IsDigit(s[0]) then 0
    else
      var k := 1 + Leading(s[1..]);
      assert s[..k] == [s[0]] + s[1..][..k - 1];
      k
  }

  /** A greedy match of digits ends exactly where the digits do. */
  lemma {:induction false} LeadingIs(d: string, rest: string)
    requires AllDigits(d) && (rest != [] ==> !IsDigit(rest[0]))
    ensures Leading(d + rest) == |d| && (d + rest)[..|d|] == d && (d + rest)[|d|..] == rest
  {
    if d != [] {
      LeadingIs(d[1..], rest);
      assert (d + rest)[1..] == d[1..] + rest;
    }
  }
}
