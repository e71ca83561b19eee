// Positional notation: what convert and convertHex of mengSen/base/LogStream.cpp
// print, and an independent reader for it.
module Numerals {
  import opened Machine

  const DIGITS: string := "9876543210123456789"
  const DIGITS_HEX: string := "0123456789ABCDEF"

  predicate Base(b: nat) {
    2 <= b <= 16
  }

  /** The digits of n, most significant first; "0" for zero. */
  function Numeral(n: nat, base: nat): (s: string)
    requires Base(base)
    ensures |s| > 0
  {
    if n < base then [DIGITS_HEX[n]] else Numeral(Quotient(n, base), base) + [DIGITS_HEX[Remainder(n, base)]]
  }

  function Decimal(value: int): string {
    if value < 0 then "-" + Numeral(-value, 10) else Numeral(value, 10)
  }

  // -------------------------------------------------------------------- the reader

  datatype Parsed = NotANumber | Number(value: int)

  function DigitValue(c: char): int {
    if '0' <= c <= '9' then c as int - '0' as int
    else if 'A' <= c <= 'F' then c as int - 'A' as int + 10
    else -1
  }

  predicate Digits(s: string, base: nat) {
    forall i :: 0 <= i < |s| ==> 0 <= DigitValue(s[i]) < base
  }

  /** Horner's scheme over the digits of s. */
  function Value(s: string, base: nat): (v: nat)
    requires Digits(s, base)
  {
    if s == [] then 0
    else
      assert forall i :: 0 <= i < |s| - 1 ==> s[..|s| - 1][i] == s[i];
      Value(s[..|s| - 1], base) * base + DigitValue(s[|s| - 1])
  }

  function ParseNumeral(s: string, base: nat): Parsed {
    if s == [] || !Digits(s, base) then NotANumber else Number(Value(s, base))
  }

  function ParseDecimal(s: string): Parsed {
    if s != [] && s[0] == '-' then
      match ParseNumeral(s[1..], 10)
      case NotANumber => NotANumber
      case Number(v) => Number(-v)
    else ParseNumeral(s, 10)
  }

  /** No superfluous leading zeros. */
  predicate Canonical(s: string) {
    |s| > 1 ==> s[0] != '0'
  }

  // ------------------------------------------------------------------------ lemmas

  lemma DigitReadsBack(d: nat)
    requires d < 16
    ensures DigitValue(DIGITS_HEX[d]) == d
    ensures DIGITS_HEX[d] == '0' <==> d == 0
  {
  }

  lemma DigitOfValue(c: char)
    requires 0 <= DigitValue(c)
    ensures DIGITS_HEX[DigitValue(c)] == c
  {
  }

  /** The table indexed by a remainder of either sign. */
  lemma ZeroTable(lsd: int)
    requires -10 < lsd < 10
    ensures DIGITS[9 + lsd] == DIGITS_HEX[if lsd < 0 then -lsd else lsd]
  {
  }

  lemma SnocDigits(s: string, c: char, base: nat)
    requires Digits(s, base) && 0 <= DigitValue(c) < base
    ensures Digits(s + [c], base) && Value(s + [c], base) == Value(s, base) * base + DigitValue(c)
  {
    assert (s + [c])[..|s|] == s;
  }

  /** Reading a numeral gives the number back, and no numeral has superfluous zeros. */
  lemma {:induction false} NumeralReadsBack(n: nat, base: nat)
    requires Base(base)
    ensures Digits(Numeral(n, base), base) && Value(Numeral(n, base), base) == n
    ensures Canonical(Numeral(n, base))
    ensures Numeral(n, base)[0] == '0' <==> n == 0
  {
    hide Quotient, Remainder, DigitValue, Value, Digits;
    if n < base {
      OneDigit(n, base);
    } else {
      QuotientShrinks(n, base);
      NumeralReadsBack(Quotient(n, base), base);
      DigitReadsBack(Remainder(n, base));
      SnocDigits(Numeral(Quotient(n, base), base), DIGITS_HEX[Remainder(n, base)], base);
    }
  }

  lemma OneDigit(n: nat, base: nat)
    requires Base(base) && n < base
    ensures var s := [DIGITS_HEX[n]];
            Digits(s, base) && Value(s, base) == n && (s[0] == '0' <==> n == 0)
  {
    hide DigitValue, Digits, Value;
    DigitReadsBack(n);
    SingleDigit(DIGITS_HEX[n], base);
  }

  lemma SingleDigit(c: char, base: nat)
    requires 0 <= DigitValue(c) < base
    ensures Digits([c], base) && Value([c], base) == DigitValue(c)
  {
    hide DigitValue, Value;
    SnocDigits([], c, base);
    NoDigits(base);
    assert [] + [c] == [c];
  }

  lemma NoDigits(base: nat)
    ensures Value([], base) * base == 0
  {
  }

  lemma QuotientShrinks(n: nat, base: nat)
    requires 2 <= base <= n
    ensures 1 <= Quotient(n, base) < n && Remainder(n, base) < base
    ensures n == Quotient(n, base) * base + Remainder(n, base)
  {
    hide Quotient, Remainder;
    DivMod(n, base);
    Doubles(Quotient(n, base), base);
  }

  lemma Doubles(q: nat, base: nat)
    requires base >= 2
    ensures q * base >= 2 * q && (q == 0 ==> q * base == 0)
  {
    assert q * base == 2 * q + q * (base - 2);
  }

  /** The numeral is the only canonical text that reads as n. */
  lemma {:induction false} NumeralIsUnique(s: string, n: nat, base: nat)
    requires Base(base) && s != [] && Canonical(s) && Digits(s, base) && Value(s, base) == n
    ensures s == Numeral(n, base)
    decreases |s|
  {
    var front, c := s[..|s| - 1], s[|s| - 1];
    assert forall i :: 0 <= i < |front| ==> front[i] == s[i];
    DigitOfValue(c);
    assert s == front + [c];
    if front != [] {
      NumeralIsUnique(front, Value(front, base), base);
      NumeralReadsBack(Value(front, base), base);
      QuotientUnique(n, base, Value(front, base), DigitValue(c));
      AtLeastBase(Value(front, base), base);
    } else {
      assert Value(front, base) == 0;
    }
  }

  lemma AtLeastBase(q: nat, base: nat)
    requires q >= 1
    ensures q * base >= base
  {
    AtLeast(q, base);
  }

  /** Printing and parsing are inverse to each other on the texts convert can produce. */
  lemma DecimalRoundTrip(v: int)
    ensures ParseDecimal(Decimal(v)) == Number(v)
    ensures Canonical(if v < 0 then Decimal(v)[1..] else Decimal(v))
  {
    hide Value, Numeral;
    NumeralReadsBack(if v < 0 then -v else v, 10);
    if v >= 0 {
      assert DigitValue(Decimal(v)[0]) >= 0;
    } else {
      assert Decimal(v)[1..] == Numeral(-v, 10);
    }
  }

  /** A text reads as v and has neither superfluous zeros nor a negative zero exactly when it is Decimal(v). */
  lemma DecimalIsUnique(s: string, v: int)
    ensures s == Decimal(v) <==>
              (&& ParseDecimal(s) == Number(v)
               && Canonical(if s != [] && s[0] == '-' then s[1..] else s)
               && s != "-0")
  {
    hide Numeral, Value, Digits, DigitValue;
    DecimalRoundTrip(v);
    NoNegativeZero(v);
    if ParseDecimal(s) == Number(v) && s != "-0" {
      if s[0] == '-' && Canonical(s[1..]) {
        NumeralIsUnique(s[1..], -v, 10);
        OneDigit(0, 10);
        assert s == "-" + s[1..];
      } else if s[0] != '-' && Canonical(s) {
        NumeralIsUnique(s, v, 10);
      }
    }
  }

  lemma NoNegativeZero(v: int)
    ensures Decimal(v) != "-0" && Decimal(v) != []
    ensures Decimal(v)[0] == '-' <==> v < 0
    ensures Numeral(0, 10) == "0"
  {
    hide Value, Numeral;
    NumeralReadsBack(if v < 0 then -v else v, 10);
    assert Numeral(0, 10) == "0" by {
      ZeroNumeral();
    }
    if v < 0 {
      assert Decimal(v)[1..] == Numeral(-v, 10);
    }
  }

  lemma ZeroNumeral()
    ensures Numeral(0, 10) == "0"
  {
  }

  // ----------------------------------------------------------------------- lengths

  function Power(base: nat, k: nat): nat {
    if k == 0 then 1 else base * Power(base, k - 1)
  }

  /** At most k digits, exactly for the numbers below base^k. */
  lemma {:induction false} NumeralLength(n: nat, base: nat, k: nat)
    requires Base(base) && k > 0
    ensures |Numeral(n, base)| <= k <==> n < Power(base, k)
    decreases k
  {
    if k == 1 {
      assert Power(base, 1) == base * Power(base, 0) == base;
    } else if n < base {
      PowerAtLeastBase(base, k);
    } else {
      QuotientShrinks(n, base);
      NumeralLength(Quotient(n, base), base, k - 1);
      DivideBelow(n, base, Power(base, k - 1));
    }
  }

  lemma {:induction false} PowerAtLeastBase(base: nat, k: nat)
    requires Base(base) && k > 0
    ensures Power(base, k) >= base
  {
    if k == 1 {
      assert Power(base, 1) == base * Power(base, 0) == base;
    } else {
      PowerAtLeastBase(base, k - 1);
      AtLeast(Power(base, k - 1), base);
    }
  }

  lemma DivideBelow(n: nat, base: nat, p: nat)
    requires base > 0
    ensures Quotient(n, base) < p <==> n < base * p
  {
    hide Quotient, Remainder;
    var q := Quotient(n, base);
    DivMod(n, base);
    if q < p {
      MulMonotone(q + 1, p, base);
    } else {
      MulMonotone(p, q, base);
    }
  }

  lemma MulMonotone(a: nat, b: nat, base: nat)
    requires a <= b
    ensures a * base <= b * base && base * b == b * base && base * a == a * base
    ensures a > 0 ==> (a - 1) * base == a * base - base
  {
  }

  /** Every 64-bit integer, signed or not, prints in at most 20 characters; an address in at most 16. */
  lemma WidthOf64Bits(v: int)
    requires -TWO_63 <= v < TWO_64
    ensures |Decimal(v)| <= 20
    ensures v >= 0 ==> |Numeral(v, 16)| <= 16
  {
    PowersOfTen();
    if v < 0 {
      NumeralLength(-v, 10, 19);
    } else {
      NumeralLength(v, 10, 20);
      PowersOfSixteen();
      NumeralLength(v, 16, 16);
    }
  }

  lemma PowerStep(base: nat, k: nat, p: nat)
    requires Power(base, k) == p
    ensures Power(base, k + 5) == base * (base * (base * (base * (base * p))))
  {
    assert Power(base, k + 1) == base * p;
    assert Power(base, k + 2) == base * Power(base, k + 1);
    assert Power(base, k + 3) == base * Power(base, k + 2);
    assert Power(base, k + 4) == base * Power(base, k + 3);
  }

  lemma PowersOfTen()
    ensures Power(10, 19) == 10000000000000000000
    ensures Power(10, 20) == 100000000000000000000
  {
    PowerStep(10, 0, 1);
    PowerStep(10, 5, 100000);
    PowerStep(10, 10, 10000000000);
    assert Power(10, 15) == 1000000000000000;
    assert Power(10, 16) == 10000000000000000;
    assert Power(10, 17) == 100000000000000000;
    assert Power(10, 18) == 1000000000000000000;
  }

  lemma PowersOfSixteen()
    ensures Power(16, 16) == TWO_64
  {
    PowerStep(16, 0, 1);
    PowerStep(16, 5, 0x10_0000);
    PowerStep(16, 10, 0x100_0000_0000);
    assert Power(16, 15) == 0x1000_0000_0000_0000;
  }

  lemma DecimalHasNoBlank(v: int)
    ensures ' ' !in Decimal(v)
  {
    hide Numeral, Value;
    NumeralReadsBack(if v < 0 then -v else v, 10);
    var n := Numeral(if v < 0 then -v else v, 10);
    assert forall i :: 0 <= i < |n| ==> n[i] != ' ';
  }
}
