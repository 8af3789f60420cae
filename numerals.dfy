/** How the game's output streams print integers: `operator<<` on an `int`,
    in decimal, or in upper-case hexadecimal after `std::hex << std::uppercase`. */
module Numerals {

  predicate IsDigitChar(c: char)
  {
    '0' <= c <= '9' || 'A' <= c <= 'F'
  }

  function DigitValue(c: char): (d: nat)
    requires IsDigitChar(c)
    ensures d < 16
  {
    if c <= '9' then c as int - '0' as int else c as int - 'A' as int + 10
  }

  /** The digit for `d`; digits above nine are upper-case letters. */
  function DigitChar(d: nat): (c: char)
    requires d < 16
    ensures IsDigitChar(c) && DigitValue(c) == d
    ensures c == '0' <==> d == 0
  {
    if d < 10 then ('0' as int + d) as char else ('A' as int + d - 10) as char
  }

  predicate AllDigits(s: string, base: nat)
  {
    forall i :: 0 <= i < |s| ==> IsDigitChar(s[i]) && DigitValue(s[i]) < base
  }

  /** Division facts for a base, kept apart from the recursive definitions so
      that these see no nonlinear arithmetic. */
  lemma DivideByBase(n: nat, base: nat)
    requires 2 <= base <= 16 && n >= base
    ensures 1 <= n / base < n && n % base < base
    ensures n == n / base * base + n % base
  {
  }

  /** The digits of `n` in `base`, most significant first, as a stream prints
      a non-negative number: at least one digit and no leading zero. */
  function Numeral(n: nat, base: nat): (s: string)
    requires 2 <= base <= 16
    ensures |s| >= 1 && AllDigits(s, base)
    ensures s[0] == '0' <==> n == 0
    decreases n
  {
    if n < base then [DigitChar(n)]
    else
      DivideByBase(n, base);
      Numeral(n / base, base) + [DigitChar(n % base)]
  }

  /** The number a string of digits denotes in `base`. */
  function NumeralValue(s: string, base: nat): nat
    requires 2 <= base <= 16
    requires AllDigits(s, base)
  {
    if s == [] then 0
    else NumeralValue(s[..|s| - 1], base) * base + DigitValue(s[|s| - 1])
  }

  /** Reading the printed digits back gives the number that was printed. */
  lemma {:induction false} NumeralRoundTrip(n: nat, base: nat)
    requires 2 <= base <= 16
    ensures NumeralValue(Numeral(n, base), base) == n
    decreases n
  {
    if n >= base {
      var prefix := Numeral(n / base, base);
      var s := prefix + [DigitChar(n % base)];
      assert s[..|s| - 1] == prefix;
      DivideByBase(n, base);
      NumeralRoundTrip(n / base, base);
    }
  }

  lemma NumeralInjective(a: nat, b: nat, base: nat)
    requires 2 <= base <= 16
    ensures Numeral(a, base) == Numeral(b, base) <==> a == b
  {
    NumeralRoundTrip(a, base);
    NumeralRoundTrip(b, base);
  }

  /** What `operator<<` prints for an `int` in decimal: a minus sign for a
      negative number, then its magnitude. */
  function Decimal(n: int): (s: string)
    ensures |s| >= 1
    ensures s[0] == '-' <==> n < 0
  {
    if n < 0 then "-" + Numeral(-n, 10) else Numeral(n, 10)
  }

  lemma DecimalInjective(a: int, b: int)
    ensures Decimal(a) == Decimal(b) <==> a == b
  {
    var da, db := Decimal(a), Decimal(b);
    if da == db {
      if a < 0 {
        assert b < 0;
        assert da == "-" + Numeral(-a, 10) && db == "-" + Numeral(-b, 10);
        assert da[1..] == Numeral(-a, 10) && db[1..] == Numeral(-b, 10);
        NumeralInjective(-a, -b, 10);
      } else {
        assert b >= 0;
        assert da == Numeral(a, 10) && db == Numeral(b, 10);
        NumeralInjective(a, b, 10);
      }
    }
  }
}
