/** Decimal rendering (`str(n)`, `f"{n:,}"`) and reading (`int(s)` of a
    digit string) of integers. */
module Numerals {
  import opened Text

  function DigitChar(d: int): (c: char)
    requires 0 <= d < 10
    ensures IsDigit(c)
  {
    ('0' as int + d) as char
  }

  /** The value of one decimal digit character. */
  function DigitOf(c: char): (d: nat)
    ensures d < 10
  {
    if IsDigit(c) then c as int - '0' as int else 0
  }

  predicate AllDigits(s: string) {
    forall i :: 0 <= i < |s| ==> IsDigit(s[i])
  }

  /** What `int(s)` returns for a non-empty string of ASCII digits
      (leading zeros allowed). */
  function DigitsValue(s: string): nat
    decreases |s|
  {
    if |s| == 0 then 0 else DigitsValue(s[..|s| - 1]) * 10 + DigitOf(s[|s| - 1])
  }

  function Pow10(k: nat): (p: nat)
    ensures p >= 1
  {
    if k == 0 then 1 else 10 * Pow10(k - 1)
  }

  /** `str(n)` for a natural number. */
  function NatToString(n: nat): (r: string)
    ensures |r| >= 1 && AllDigits(r)
    decreases n
  {
    if n < 10 then [DigitChar(n)] else NatToString(n / 10) + [DigitChar(n % 10)]
  }

  /** `str(n)` (and `f"{n}"`) for any integer. */
  function IntToString(n: int): string {
    if n < 0 then "-" + NatToString(-n) else NatToString(n)
  }

  /** Three digits with leading zeros: the groups after the first in `f"{n:,}"`. */
  function Pad3(n: nat): (r: string)
    requires n < 1000
    ensures |r| == 3 && AllDigits(r)
  {
    [DigitChar(n / 100), DigitChar(n / 10 % 10), DigitChar(n % 10)]
  }

  /** `f"{n:,}"` for a natural number: thousands separated by commas. */
  function WithCommas(n: nat): (r: string)
    ensures |r| >= 1 && IsDigit(r[0])
    ensures forall i :: 0 <= i < |r| ==> IsDigit(r[i]) || r[i] == ','
    decreases n
  {
    if n < 1000 then NatToString(n) else WithCommas(n / 1000) + "," + Pad3(n % 1000)
  }

  /** `f"{n:,}"` for any integer. */
  function IntWithCommas(n: int): string {
    if n < 0 then "-" + WithCommas(-n) else WithCommas(n)
  }

  /** Reading a rendered natural number gives the number back. */
  lemma {:induction false} NatToStringRoundTrip(n: nat)
    ensures DigitsValue(NatToString(n)) == n
    decreases n
  {
    if n >= 10 {
      var s := NatToString(n);
      NatToStringRoundTrip(n / 10);
      assert s[..|s| - 1] == NatToString(n / 10);
    }
  }

  /** Reading a concatenation of digit strings: the left part is shifted by
      the length of the right part. */
  lemma {:induction false} DigitsValueAppend(a: string, b: string)
    ensures DigitsValue(a + b) == DigitsValue(a) * Pow10(|b|) + DigitsValue(b)
    decreases |b|
  {
    if |b| == 0 {
      assert a + b == a;
    } else {
      var b' := b[..|b| - 1];
      assert (a + b)[..|a + b| - 1] == a + b';
      DigitsValueAppend(a, b');
      var x, p, y, d := DigitsValue(a), Pow10(|b'|), DigitsValue(b'), DigitOf(b[|b| - 1]);
      assert DigitsValue(a + b) == (x * p + y) * 10 + d;
      ShiftDistributes(x, p, y, d);
    }
  }

  lemma ShiftDistributes(x: int, p: int, y: int, d: int)
    ensures (x * p + y) * 10 + d == x * (10 * p) + (y * 10 + d)
  {
  }

  lemma Pad3Value(n: nat)
    requires n < 1000
    ensures DigitsValue(Pad3(n)) == n
  {
    var r := Pad3(n);
    assert r[..2][..1] == [r[0]];
    assert DigitsValue([r[0]]) == n / 100;
    assert DigitsValue(r[..2]) == (n / 100) * 10 + n / 10 % 10;
  }

  /** Removing the commas from `f"{n:,}"` and reading the digits gives `n`
      back. */
  lemma {:induction false} WithCommasRoundTrip(n: nat)
    ensures DigitsValue(Replace(WithCommas(n), ',', "")) == n
    decreases n
  {
    if n < 1000 {
      ReplaceAbsent(NatToString(n), ',', "");
      NatToStringRoundTrip(n);
    } else {
      var head := WithCommas(n / 1000);
      var tail := Pad3(n % 1000);
      assert WithCommas(n) == head + ("," + tail);
      ReplaceAppend(head, "," + tail, ',', "");
      ReplaceAppend(",", tail, ',', "");
      assert Replace(",", ',', "") == "";
      ReplaceAbsent(tail, ',', "");
      WithCommasRoundTrip(n / 1000);
      var digits := Replace(head, ',', "");
      assert Replace(WithCommas(n), ',', "") == digits + tail;
      DigitsValueAppend(digits, tail);
      Pad3Value(n % 1000);
      assert Pow10(3) == 1000;
      assert DigitsValue(digits + tail) == (n / 1000) * 1000 + n % 1000;
    }
  }

  /** A year of the 1900s or 2000s renders as four digits starting "19" or "20". */
  lemma YearString(y: int)
    requires 1900 <= y <= 2099
    ensures var s := NatToString(y);
            |s| == 4 && ((s[0] == '1' && s[1] == '9') || (s[0] == '2' && s[1] == '0'))
  {
    assert NatToString(y / 1000) == [DigitChar(y / 1000)];
    assert NatToString(y / 100) == NatToString(y / 1000) + [DigitChar(y / 100 % 10)];
    assert NatToString(y / 10) == NatToString(y / 100) + [DigitChar(y / 10 % 10)];
  }
}
