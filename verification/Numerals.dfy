/** What a number formatter should print, and how to read it back. */
module Numerals {
  function Digit(d: nat): char
    requires d < 16
  {
    "0123456789ABCDEF"[d]
  }

  function DigitValue(c: char): int {
    if '0' <= c <= '9' then c as int - '0' as int
    else if 'A' <= c <= 'F' then c as int - 'A' as int + 10
    else -1
  }

  /** Positional notation, most significant digit first. */
  function Numeral(n: nat, base: nat): (s: string)
    requires base == 10 || base == 16
    ensures |s| > 0
  {
    if n < base then [Digit(n)] else Numeral(n / base, base) + [Digit(n % base)]
  }

  predicate IsNumeral(s: string, base: nat) {
    |s| > 0 && forall c <- s :: 0 <= DigitValue(c) < base
  }

  predicate Canonical(s: string, base: nat) {
    IsNumeral(s, base) && (s[0] == '0' ==> |s| == 1)
  }

  function Value(s: string, base: nat): nat
    requires IsNumeral(s, base)
  {
    var low := DigitValue(s[|s| - 1]);
    if |s| == 1 then low else Value(s[..|s| - 1], base) * base + low
  }

  function Power(base: nat, k: nat): nat {
    if k == 0 then 1 else base * Power(base, k - 1)
  }

  lemma DigitsAreDistinct(d: nat)
    requires d < 16
    ensures DigitValue(Digit(d)) == d && (Digit(d) == '0' ==> d == 0)
  {
  }

  lemma {:induction false} NumeralReadsBack(n: nat, base: nat)
    requires base == 10 || base == 16
    ensures Canonical(Numeral(n, base), base) && Value(Numeral(n, base), base) == n
    ensures n > 0 ==> Numeral(n, base)[0] != '0'
  {
    if n < base {
      DigitsAreDistinct(n);
    } else {
      var s := Numeral(n / base, base);
      NumeralReadsBack(n / base, base);
      DigitsAreDistinct(n % base);
      assert Numeral(n, base)[..|s|] == s;
      assert n / base > 0;
    }
  }

  /** A canonical numeral is the numeral of its value: no other string without leading zeros reads the same. */
  lemma {:induction false} CanonicalIsNumeral(s: string, base: nat)
    requires base == 10 || base == 16
    requires Canonical(s, base)
    ensures Numeral(Value(s, base), base) == s
    ensures |s| > 1 ==> Value(s, base) >= base
  {
    hide Numeral, Value, DigitValue;
    if |s| == 1 {
      OneDigit(s, base);
    } else {
      var high := s[..|s| - 1];
      LastDigit(s, base);
      CanonicalIsNumeral(high, base);
      if |high| == 1 {
        OneDigit(high, base);
      }
      NumeralExtends(base, Value(high, base), DigitValue(s[|s| - 1]));
      assert s == high + [s[|s| - 1]];
    }
  }

  lemma OneDigit(s: string, base: nat)
    requires (base == 10 || base == 16) && IsNumeral(s, base) && |s| == 1
    ensures Numeral(Value(s, base), base) == s && (Value(s, base) == 0 ==> s[0] == '0')
  {
    assert s[0] in s;
    ValuesAreDistinct(s[0]);
  }

  lemma LastDigit(s: string, base: nat)
    requires (base == 10 || base == 16) && Canonical(s, base) && |s| > 1
    ensures var high, low := s[..|s| - 1], s[|s| - 1];
            && Canonical(high, base) && high[0] == s[0] && 0 <= DigitValue(low) < base
            && Digit(DigitValue(low)) == low
            && Value(s, base) == Value(high, base) * base + DigitValue(low)
  {
    var high, low := s[..|s| - 1], s[|s| - 1];
    assert low in s && forall c <- high :: c in s;
    ValuesAreDistinct(low);
  }

  lemma NumeralExtends(base: nat, h: nat, l: nat)
    requires (base == 10 || base == 16) && h > 0 && l < base
    ensures h * base + l >= base
    ensures Numeral(h * base + l, base) == Numeral(h, base) + [Digit(l)]
  {
    Positional(base, h, l);
  }

  lemma ValuesAreDistinct(c: char)
    requires 0 <= DigitValue(c) < 16
    ensures Digit(DigitValue(c)) == c && (DigitValue(c) == 0 ==> c == '0')
  {
  }

  lemma Positional(base: nat, h: nat, l: nat)
    requires (base == 10 || base == 16) && l < base
    ensures (h * base + l) / base == h && (h * base + l) % base == l
    ensures h > 0 ==> h * base + l >= base
  {
  }

  lemma {:induction false} NumeralLength(n: nat, base: nat, k: nat)
    requires base == 10 || base == 16
    requires k > 0 && n < Power(base, k)
    ensures |Numeral(n, base)| <= k
  {
    if n >= base {
      assert Power(base, 1) == base * Power(base, 0);
      assert n / base < Power(base, k - 1) by {
        assert n < base * Power(base, k - 1);
      }
      NumeralLength(n / base, base, k - 1);
    }
  }

  // ---- Signed decimals ----

  function Decimal(v: int): string {
    if v < 0 then "-" + Numeral(-v, 10) else Numeral(v, 10)
  }

  predicate CanonicalDecimal(s: string) {
    |s| > 0 && if s[0] == '-' then Canonical(s[1..], 10) && s[1] != '0' else Canonical(s, 10)
  }

  function ParseDecimal(s: string): int
    requires CanonicalDecimal(s)
  {
    if s[0] == '-' then 0 - Value(s[1..], 10) else Value(s, 10)
  }

  predicate Int64(v: int) {
    -0x8000_0000_0000_0000 <= v < 0x8000_0000_0000_0000
  }

  predicate UInt64(v: int) {
    0 <= v < 0x1_0000_0000_0000_0000
  }

  lemma DecimalReadsBack(v: int)
    ensures CanonicalDecimal(Decimal(v)) && ParseDecimal(Decimal(v)) == v
  {
    hide Numeral, Value, DigitValue;
    var s := Decimal(v);
    if v < 0 {
      NumeralReadsBack(-v, 10);
      assert s[1..] == Numeral(-v, 10);
    } else {
      NumeralReadsBack(v, 10);
      StartsWithDigit(s);
    }
  }

  lemma StartsWithDigit(s: string)
    requires IsNumeral(s, 10)
    ensures s[0] != '-'
  {
    assert s[0] in s;
  }

  /** Every canonical decimal is what its value prints as. */
  lemma CanonicalIsDecimal(s: string)
    requires CanonicalDecimal(s)
    ensures Decimal(ParseDecimal(s)) == s
  {
    hide Numeral, DigitValue;
    if s[0] == '-' {
      var t := s[1..];
      CanonicalIsNumeral(t, 10);
      NumeralReadsBack(0, 10);
      assert s == "-" + t;
      assert Numeral(0, 10) == "0" by { ZeroNumeral(); }
    } else {
      CanonicalIsNumeral(s, 10);
    }
  }

  lemma ZeroNumeral()
    ensures Numeral(0, 10) == "0"
  {
  }

  lemma PowersOf10()
    ensures Power(10, 19) == 10_000_000_000_000_000_000 && Power(10, 20) == 100_000_000_000_000_000_000
  {
    assert Power(10, 5) == 100_000;
    assert Power(10, 10) == 10_000_000_000;
    assert Power(10, 15) == 1_000_000_000_000_000;
  }

  lemma PowersOf16()
    ensures Power(16, 16) == 0x1_0000_0000_0000_0000
  {
    assert Power(16, 5) == 0x10_0000;
    assert Power(16, 10) == 0x100_0000_0000;
  }

  /** Twenty characters are enough for any 64-bit integer, signed or not. */
  lemma DecimalLength(v: int)
    requires Int64(v) || UInt64(v)
    ensures |Decimal(v)| <= 20
  {
    PowersOf10();
    if v < 0 {
      NumeralLength(-v, 10, 19);
    } else {
      NumeralLength(v, 10, 20);
    }
  }

  lemma HexLength(v: nat)
    requires UInt64(v)
    ensures |Numeral(v, 16)| <= 16
  {
    PowersOf16();
    NumeralLength(v, 16, 16);
  }
}
