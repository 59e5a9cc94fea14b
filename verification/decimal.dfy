/** Integers as `fmt.Sprintf` prints them with `%d`, `%02d` and `%04d`. */
module Decimal {

  function DigitChar(d: nat): char
    requires d < 10
  {
    "0123456789"[d]
  }

  function CharDigit(c: char): int {
    c as int - '0' as int
  }

  function Digits(n: nat): (s: string)
    ensures |s| > 0
    decreases n
  {
    if n < 10 then [DigitChar(n)] else Digits(n / 10) + [DigitChar(n % 10)]
  }

  function Zeros(k: nat): string {
    seq(k, i => '0')
  }

  function Pad(n: nat, width: nat): (s: string)
    ensures |s| > 0
  {
    var d := Digits(n);
    Zeros(if |d| < width then width - |d| else 0) + d
  }

  /** Zero-padded to `width`; the sign counts, as it does in Go. */
  function Format(n: int, width: nat): string {
    if n < 0 then "-" + Pad(-n, if width > 0 then width - 1 else 0) else Pad(n, width)
  }

  function Value(s: string): int
    decreases |s|
  {
    if s == [] then 0 else 10 * Value(s[..|s| - 1]) + CharDigit(s[|s| - 1])
  }

  function Parse(s: string): int {
    if s != [] && s[0] == '-' then -Value(s[1..]) else Value(s)
  }

  lemma {:induction false} ValueOfDigits(n: nat)
    ensures Value(Digits(n)) == n
    decreases n
  {
    if n >= 10 {
      ValueOfDigits(n / 10);
      assert Digits(n)[..|Digits(n)| - 1] == Digits(n / 10);
    }
  }

  lemma {:induction false} ValueOfZeros(k: nat, s: string)
    ensures Value(Zeros(k) + s) == Value(s)
    decreases |s|, k
  {
    var t := Zeros(k) + s;
    if s == [] {
      if k > 0 {
        assert t[..k - 1] == Zeros(k - 1) + s;
        ValueOfZeros(k - 1, s);
      }
    } else {
      assert t[..|t| - 1] == Zeros(k) + s[..|s| - 1];
      ValueOfZeros(k, s[..|s| - 1]);
    }
  }

  lemma {:induction false} DigitsAreDigits(n: nat)
    ensures forall c | c in Digits(n) :: '0' <= c <= '9'
    decreases n
  {
    if n >= 10 { DigitsAreDigits(n / 10); }
  }

  lemma PadValue(n: nat, width: nat)
    ensures Value(Pad(n, width)) == n
    ensures forall c | c in Pad(n, width) :: '0' <= c <= '9'
  {
    DigitsAreDigits(n);
    ValueOfDigits(n);
    ValueOfZeros(|Pad(n, width)| - |Digits(n)|, Digits(n));
  }

  /** Printing loses nothing, whatever the width. */
  lemma ParseOfFormat(n: int, width: nat)
    ensures Parse(Format(n, width)) == n
  {
    if n < 0 {
      var p := Pad(-n, if width > 0 then width - 1 else 0);
      PadValue(-n, if width > 0 then width - 1 else 0);
      assert ("-" + p)[1..] == p;
    } else {
      PadValue(n, width);
      assert Pad(n, width)[0] in Pad(n, width);
    }
  }

  lemma FormatChars(n: int, width: nat)
    ensures forall c | c in Format(n, width) :: c == '-' || '0' <= c <= '9'
  {
    if n < 0 { PadValue(-n, if width > 0 then width - 1 else 0); } else { PadValue(n, width); }
  }

  lemma TwoDigits(n: nat)
    requires n < 100
    ensures |Format(n, 2)| == 2
  {
    if n >= 10 { assert |Digits(n / 10)| == 1; }
  }
}
