/** Decimal digit strings: Python's `str(n)` for the menu counter, and the
    zero-padded fields strftime writes for `%d`, `%m` and `%Y`. */
module Decimal {

  predicate IsDigit(c: char) {
    '0' <= c <= '9'
  }

  predicate AllDigits(s: string) {
    forall i :: 0 <= i < |s| ==> IsDigit(s[i])
  }

  function DigitValue(c: char): (d: nat)
    requires IsDigit(c)
    ensures d < 10
  {
    c as int - '0' as int
  }

  function DigitChar(d: nat): (c: char)
    requires d < 10
    ensures IsDigit(c) && DigitValue(c) == d
  {
    ('0' as int + d) as char
  }

  /** The number a string of decimal digits denotes, most significant first. */
  function Value(s: string): nat
    requires AllDigits(s)
  {
    if |s| == 0 then 0 else 10 * Value(s[..|s| - 1]) + DigitValue(s[|s| - 1])
  }

  /** Python's `str(n)` for a non-negative integer: shortest decimal form. */
  function Str(n: nat): (s: string)
    ensures AllDigits(s)
    ensures |s| == 1 <==> n < 10
    ensures n < 100 ==> |s| <= 2
    ensures |s| >= 1
  {
    if n < 10 then [DigitChar(n)] else Str(n / 10) + [DigitChar(n % 10)]
  }

  /** `str` is a faithful rendering: reading its digits back gives `n`. */
  lemma {:induction false} StrValue(n: nat)
    ensures Value(Str(n)) == n
  {
    if n >= 10 {
      var s := Str(n);
      assert s[..|s| - 1] == Str(n / 10);
      StrValue(n / 10);
    }
  }

  /** `str` never pads: its first digit is '0' only for zero itself. */
  lemma {:induction false} StrNoLeadingZero(n: nat)
    ensures Str(n)[0] == '0' <==> n == 0
  {
    if n >= 10 {
      StrNoLeadingZero(n / 10);
      assert Str(n)[0] == Str(n / 10)[0];
    }
  }

  /** The value of a two-digit string, digit by digit. */
  lemma Value2(s: string)
    requires |s| == 2 && AllDigits(s)
    ensures Value(s) == 10 * DigitValue(s[0]) + DigitValue(s[1])
  {
    var t := s[..1];
    assert t[..0] == [];
    assert Value(t[..0]) == 0;
    assert Value(t) == DigitValue(s[0]);
    assert s[..|s| - 1] == t;
  }

  /** The value of a four-digit string, digit by digit. */
  lemma Value4(s: string)
    requires |s| == 4 && AllDigits(s)
    ensures Value(s) == 1000 * DigitValue(s[0]) + 100 * DigitValue(s[1]) + 10 * DigitValue(s[2]) + DigitValue(s[3])
  {
    var t := s[..3];
    assert t[..2] == s[..2];
    assert t[2] == s[2];
    Value2(s[..2]);
  }

  /** strftime's `%d` / `%m`: two digits, zero-padded. */
  function Pad2(n: nat): (s: string)
    requires n < 100
    ensures |s| == 2 && AllDigits(s)
    ensures Value(s) == n
  {
    var s := [DigitChar(n / 10), DigitChar(n % 10)];
    Value2(s);
    s
  }

  /** strftime's `%Y`: four digits, zero-padded. */
  function Pad4(n: nat): (s: string)
    requires n < 10000
    ensures |s| == 4 && AllDigits(s)
    ensures Value(s) == n
  {
    var hi, lo := Pad2(n / 100), Pad2(n % 100);
    var s := hi + lo;
    Value2(hi);
    Value2(lo);
    Value4(s);
    s
  }

  /** Every two-digit string is the padded form of the number it denotes. */
  lemma Pad2Value(s: string)
    requires |s| == 2 && AllDigits(s)
    ensures Value(s) < 100 && Pad2(Value(s)) == s
  {
    Value2(s);
    var p := Pad2(Value(s));
    assert DigitValue(p[0]) == DigitValue(s[0]);
    assert DigitValue(p[1]) == DigitValue(s[1]);
  }

  /** Every four-digit string is the padded form of the number it denotes. */
  lemma Pad4Value(s: string)
    requires |s| == 4 && AllDigits(s)
    ensures Value(s) < 10000 && Pad4(Value(s)) == s
  {
    Value4(s);
    Value2(s[..2]);
    Value2(s[2..]);
    Pad2Value(s[..2]);
    Pad2Value(s[2..]);
    assert Value(s) / 100 == Value(s[..2]);
    assert Value(s) % 100 == Value(s[2..]);
    assert s == s[..2] + s[2..];
  }
}
