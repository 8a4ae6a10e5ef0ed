/** Decimal text of integers: Python's `str(int)`, the `%02d`/`%04d` fields
    of `strftime`, and the digit strings `strptime` reads. */
module Decimal {

  predicate IsDigit(c: char) {
    '0' <= c <= '9'
  }

  predicate AllDigits(s: string) {
    forall i :: 0 <= i < |s| ==> IsDigit(s[i])
  }

  function DigitChar(d: int): (c: char)
    requires 0 <= d < 10
    ensures IsDigit(c) && c as int - '0' as int == d
  {
    ('0' as int + d) as char
  }

  /** The number a string of decimal digits denotes, most significant digit first. */
  function DigitsValue(s: string): nat
    requires AllDigits(s)
  {
    if s == [] then 0 else DigitsValue(s[..|s| - 1]) * 10 + (s[|s| - 1] as int - '0' as int)
  }

  lemma DigitsValueSnoc(s: string, c: char)
    requires AllDigits(s) && IsDigit(c)
    ensures AllDigits(s + [c])
    ensures DigitsValue(s + [c]) == DigitsValue(s) * 10 + (c as int - '0' as int)
  {
    assert (s + [c])[..|s|] == s;
  }

  lemma DigitsValueAppendTwo(a: string, b: string)
    requires AllDigits(a) && AllDigits(b) && |b| == 2
    ensures AllDigits(a + b)
    ensures DigitsValue(a + b) == DigitsValue(a) * 100 + DigitsValue(b)
  {
    var a1 := a + [b[0]];
    DigitsValueSnoc(a, b[0]);
    DigitsValueSnoc(a1, b[1]);
    assert a + b == a1 + [b[1]];
    assert b[..1] == [b[0]] && b[..1][..0] == [];
    assert DigitsValue(b) == DigitsValue(b[..1]) * 10 + (b[1] as int - '0' as int);
    assert DigitsValue(b[..1]) == b[0] as int - '0' as int;
  }

  /** The digit strings `str` produces for naturals: non-empty, and no
      leading zero except in "0" itself. */
  predicate Canonical(s: string) {
    |s| >= 1 && AllDigits(s) && (s[0] == '0' ==> |s| == 1)
  }

  /** `str(n)` for a natural number: the canonical decimal text,
      which reads back as `n` and has no leading zero. */
  function NatToString(n: nat): (s: string)
    ensures Canonical(s)
    ensures DigitsValue(s) == n
    ensures s[0] == '0' <==> n == 0
  {
    if n < 10 then
      DigitsValueSnoc([], DigitChar(n));
      assert [] + [DigitChar(n)] == [DigitChar(n)];
      [DigitChar(n)]
    else
      var prefix := NatToString(n / 10);
      DigitsValueSnoc(prefix, DigitChar(n % 10));
      prefix + [DigitChar(n % 10)]
  }

  /** A digit string that does not start with '0' denotes a positive number. */
  lemma {:induction false} LeadingDigitPositive(s: string)
    requires |s| >= 1 && AllDigits(s) && s[0] != '0'
    ensures DigitsValue(s) >= 1
  {
    if |s| > 1 {
      LeadingDigitPositive(s[..|s| - 1]);
    }
  }

  /** The canonical text of a number is unique: every canonical digit
      string is what `str` prints for the number it denotes. */
  lemma {:induction false} NatToStringUnique(s: string)
    requires Canonical(s)
    ensures NatToString(DigitsValue(s)) == s
  {
    var p, d := s[..|s| - 1], s[|s| - 1] as int - '0' as int;
    assert s == p + [s[|s| - 1]];
    if |s| > 1 {
      NatToStringUnique(p);
      LeadingDigitPositive(p);
      var v := DigitsValue(s);
      assert v == DigitsValue(p) * 10 + d;
      assert v / 10 == DigitsValue(p) && v % 10 == d;
      assert DigitChar(d) == s[|s| - 1];
    } else {
      assert p == [];
      assert DigitChar(d) == s[0];
    }
  }

  /** `str(n)` for any integer: a minus sign before the magnitude when negative. */
  function IntToString(n: int): (s: string)
    ensures |s| >= 1
    ensures n >= 0 ==> Canonical(s) && DigitsValue(s) == n
    ensures n < 0 ==> s[0] == '-' && Canonical(s[1..]) && s[1] != '0' && DigitsValue(s[1..]) == -n
  {
    if n < 0 then
      var m := NatToString(-n);
      assert ("-" + m)[1..] == m;
      "-" + m
    else
      NatToString(n)
  }

  /** The two-digit, zero-padded field `%02d` of strftime. */
  function Pad2(n: int): (s: string)
    requires 0 <= n < 100
    ensures |s| == 2 && AllDigits(s)
    ensures DigitsValue(s) == n
  {
    DigitsValueSnoc([], DigitChar(n / 10));
    DigitsValueSnoc([DigitChar(n / 10)], DigitChar(n % 10));
    assert [] + [DigitChar(n / 10)] == [DigitChar(n / 10)];
    [DigitChar(n / 10), DigitChar(n % 10)]
  }

  /** The four-digit, zero-padded year field `%Y`. */
  function Pad4(n: int): (s: string)
    requires 0 <= n < 10000
    ensures |s| == 4 && AllDigits(s)
    ensures DigitsValue(s) == n
  {
    DigitsValueAppendTwo(Pad2(n / 100), Pad2(n % 100));
    Pad2(n / 100) + Pad2(n % 100)
  }

  /** Every two-digit string is the padded text of the number it denotes. */
  lemma Pad2OfDigits(s: string)
    requires |s| == 2 && AllDigits(s)
    ensures DigitsValue(s) < 100
    ensures Pad2(DigitsValue(s)) == s
  {
    var hi, lo := s[0] as int - '0' as int, s[1] as int - '0' as int;
    DigitsValueSnoc([], s[0]);
    DigitsValueSnoc([s[0]], s[1]);
    assert s == [] + [s[0]] + [s[1]];
    assert DigitsValue(s) == hi * 10 + lo;
    assert (hi * 10 + lo) / 10 == hi && (hi * 10 + lo) % 10 == lo;
  }

  /** Every four-digit string is the padded text of the number it denotes. */
  lemma Pad4OfDigits(s: string)
    requires |s| == 4 && AllDigits(s)
    ensures DigitsValue(s) < 10000
    ensures Pad4(DigitsValue(s)) == s
  {
    var hi, lo := s[..2], s[2..];
    assert s == hi + lo;
    DigitsValueAppendTwo(hi, lo);
    Pad2OfDigits(hi);
    Pad2OfDigits(lo);
    var v := DigitsValue(s);
    assert v == DigitsValue(hi) * 100 + DigitsValue(lo);
    assert v / 100 == DigitsValue(hi) && v % 100 == DigitsValue(lo);
  }
}
