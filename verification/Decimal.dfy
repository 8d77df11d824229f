/** Whole numbers and hundredths as they are written down and read back. */
module Decimal {
  type Digit = d: int | 0 <= d <= 9 witness 0

  function DigitChar(d: Digit): char {
    ['0', '1', '2', '3', '4', '5', '6', '7', '8', '9'][d]
  }

  predicate IsDigit(c: char) {
    '0' <= c <= '9'
  }

  function DigitValue(c: char): Digit
    requires IsDigit(c)
  {
    (c as int) - ('0' as int)
  }

  predicate AllDigits(s: string) {
    forall i :: 0 <= i < |s| ==> IsDigit(s[i])
  }

  function Digits(n: nat): (s: string)
    ensures s != "" && AllDigits(s)
  {
    if n < 10 then [DigitChar(n)] else Digits(n / 10) + [DigitChar(n % 10)]
  }

  function DigitsValue(s: string): nat
    requires AllDigits(s)
  {
    if s == "" then 0 else 10 * DigitsValue(s[..|s| - 1]) + DigitValue(s[|s| - 1])
  }

  lemma {:induction false} DigitsReadBack(n: nat)
    ensures DigitsValue(Digits(n)) == n
  {
    if n >= 10 {
      DigitsReadBack(n / 10);
      assert Digits(n)[..|Digits(n)| - 1] == Digits(n / 10);
    } else {
      assert [DigitChar(n)][..0] == "";
    }
  }

  function Power10(k: nat): nat {
    if k == 0 then 1 else 10 * Power10(k - 1)
  }

  lemma {:induction false} DigitsLength(n: nat, k: nat)
    requires k > 0 && n < Power10(k)
    ensures |Digits(n)| <= k
  {
    assert Power10(1) == 10 * Power10(0) && Power10(0) == 1;
    if n < 10 {
    } else {
      DigitsLength(n / 10, k - 1);
    }
  }

  lemma {:induction false} MoreIsNoShorter(m: nat, n: nat)
    requires m <= n
    ensures |Digits(m)| <= |Digits(n)|
  {
    if m < 10 {
    } else {
      MoreIsNoShorter(m / 10, n / 10);
    }
  }

  lemma {:induction false} AtLeastSoLong(n: nat, k: nat)
    requires n >= Power10(k)
    ensures |Digits(n)| > k
  {
    if k == 0 {
    } else {
      assert n >= 10 by { OneAtLeast(k - 1); }
      AtLeastSoLong(n / 10, k - 1);
    }
  }

  lemma {:induction false} OneAtLeast(k: nat)
    ensures Power10(k) >= 1
  {
    if k == 0 {
    } else {
      OneAtLeast(k - 1);
    }
  }

  /** A signed whole number. */
  function Print(n: int): string {
    if n < 0 then "-" + Digits(-n) else Digits(n)
  }

  function Unsigned(s: string): string {
    if s != "" && (s[0] == '-' || s[0] == '+') then s[1..] else s
  }

  predicate IsWhole(s: string) {
    Unsigned(s) != "" && AllDigits(Unsigned(s))
  }

  function WholeValue(s: string): int
    requires IsWhole(s)
  {
    var size: int := DigitsValue(Unsigned(s));
    if s[0] == '-' then -size else size
  }

  lemma NoSignToDrop(s: string)
    requires s != "" && IsDigit(s[0])
    ensures Unsigned(s) == s && Unsigned("-" + s) == s
  {
  }

  lemma PrintReadBack(n: int)
    ensures IsWhole(Print(n)) && WholeValue(Print(n)) == n
    ensures Print(n) != ""
    ensures forall i :: 0 <= i < |Print(n)| ==> IsDigit(Print(n)[i]) || Print(n)[i] == '-'
  {
    hide Digits, DigitsValue, Unsigned;
    var size := if n < 0 then -n else n;
    DigitsReadBack(size);
    assert IsDigit(Digits(size)[0]);
    NoSignToDrop(Digits(size));
  }

  /** Two digits after the point: a number of hundredths, as "%.2f" writes it. */
  function PrintHundredths(h: int): string {
    var size := if h < 0 then -h else h;
    (if h < 0 then "-" else "") + Digits(size / 100) + "." + [DigitChar(size % 100 / 10), DigitChar(size % 10)]
  }

  /** A plain decimal: a sign perhaps, digits, a point and two digits. */
  predicate IsPlain(s: string) {
    var u := Unsigned(s);
    |u| >= 4 && u[|u| - 3] == '.' && AllDigits(u[..|u| - 3]) && IsDigit(u[|u| - 2]) && IsDigit(u[|u| - 1])
  }

  /** Its value, in hundredths. */
  function PlainHundredths(s: string): int
    requires IsPlain(s)
  {
    var u := Unsigned(s);
    var size := 100 * DigitsValue(u[..|u| - 3]) + 10 * DigitValue(u[|u| - 2]) + DigitValue(u[|u| - 1]);
    if s[0] == '-' then -size else size
  }

  lemma HundredthsReadBack(h: int)
    ensures IsPlain(PrintHundredths(h)) && PlainHundredths(PrintHundredths(h)) == h
    ensures forall i :: 0 <= i < |PrintHundredths(h)| ==>
              var c := PrintHundredths(h)[i]; IsDigit(c) || c == '-' || c == '.'
  {
    hide Digits, DigitsValue, Unsigned, DigitChar, DigitValue;
    var size := if h < 0 then -h else h;
    var whole, tens, ones := Digits(size / 100), DigitChar(size % 100 / 10), DigitChar(size % 10);
    var u := whole + "." + [tens, ones];
    assert IsDigit(whole[0]);
    assert PrintHundredths(h) == if h < 0 then "-" + u else u;
    NoSignToDrop(u);
    assert u[..|u| - 3] == whole;
    DigitsReadBack(size / 100);
    DigitReadBack(size % 100 / 10);
    DigitReadBack(size % 10);
    assert size == 100 * (size / 100) + 10 * (size % 100 / 10) + size % 10;
  }

  lemma DigitReadBack(d: Digit)
    ensures IsDigit(DigitChar(d)) && DigitValue(DigitChar(d)) == d
  {
  }
}
