/**
 * Character and string helpers shared by the models of the date keys, the unique
 * identifiers, the checksums and the clock strings: decimal and hexadecimal
 * rendering (`Number.prototype.toString`), `padStart`, `split` and ASCII upper-casing.
 */
module Text {
  predicate IsDigit(c: char) { '0' <= c <= '9' }

  predicate AllDigits(s: string) { forall i :: 0 <= i < |s| ==> IsDigit(s[i]) }

  function DigitChar(d: nat): (c: char)
    requires d < 10
    ensures IsDigit(c) && c as int - '0' as int == d
  {
    "0123456789"[d]
  }

  function DigitValue(c: char): (d: nat)
    requires IsDigit(c)
    ensures d < 10 && DigitChar(d) == c
  {
    c as int - '0' as int
  }

  /** The decimal rendering of a non-negative integer, without leading zeros. */
  function Decimal(n: nat): (s: string)
    ensures 1 <= |s| && AllDigits(s)
    decreases n
  {
    if n < 10 then [DigitChar(n)] else Decimal(n / 10) + [DigitChar(n % 10)]
  }

  /** The value of a string of decimal digits (leading zeros allowed), as `parseInt` reads it. */
  function DigitsValue(s: string): nat
    requires AllDigits(s)
  {
    if s == [] then 0 else DigitsValue(s[..|s| - 1]) * 10 + DigitValue(s[|s| - 1])
  }

  lemma {:induction false} DecimalRoundTrip(n: nat)
    ensures DigitsValue(Decimal(n)) == n
    decreases n
  {
    if n >= 10 {
      var s := Decimal(n);
      assert s[..|s| - 1] == Decimal(n / 10);
      DecimalRoundTrip(n / 10);
    }
  }

  /** `s.padStart(width, fill)`: left-fill to `width` characters; longer strings are kept whole. */
  function PadStart(s: string, width: nat, fill: char): (r: string)
    ensures |r| == if |s| >= width then |s| else width
    ensures r[|r| - |s|..] == s
    ensures forall i :: 0 <= i < |r| - |s| ==> r[i] == fill
  {
    if |s| >= width then s else seq(width - |s|, _ => fill) + s
  }

  /** A number rendered with `toString().padStart(width, '0')`. */
  function Padded(n: nat, width: nat): (s: string)
    ensures AllDigits(s)
  {
    PadStart(Decimal(n), width, '0')
  }

  function Pad2(n: nat): string { Padded(n, 2) }

  lemma {:induction false} LeadingZerosIgnored(k: nat, s: string)
    requires AllDigits(s)
    ensures AllDigits(seq(k, _ => '0') + s)
    ensures DigitsValue(seq(k, _ => '0') + s) == DigitsValue(s)
    decreases |s|
  {
    var z := seq(k, _ => '0');
    if s == [] {
      assert z + s == z;
      ZerosValue(k);
    } else {
      var t := z + s;
      assert t[..|t| - 1] == z + s[..|s| - 1];
      LeadingZerosIgnored(k, s[..|s| - 1]);
    }
  }

  lemma {:induction false} ZerosValue(k: nat)
    ensures DigitsValue(seq(k, _ => '0')) == 0
  {
    if k > 0 {
      var z := seq(k, _ => '0');
      assert z[..k - 1] == seq(k - 1, _ => '0');
      ZerosValue(k - 1);
    }
  }

  /** Reading a zero-padded rendering back gives the number: `padStart` loses nothing. */
  lemma PaddedRoundTrip(n: nat, width: nat)
    ensures DigitsValue(Padded(n, width)) == n
  {
    var d := Decimal(n);
    DecimalRoundTrip(n);
    if |d| < width {
      assert Padded(n, width) == seq(width - |d|, _ => '0') + d;
      LeadingZerosIgnored(width - |d|, d);
    } else {
      assert Padded(n, width) == d;
    }
  }

  function Pow10(k: nat): nat { if k == 0 then 1 else 10 * Pow10(k - 1) }

  /** A number below 10^k renders in at most k digits. */
  lemma {:induction false} DecimalLength(n: nat, k: nat)
    requires 1 <= k && n < Pow10(k)
    ensures |Decimal(n)| <= k
    decreases n
  {
    if n >= 10 {
      DecimalLength(n / 10, k - 1);
    }
  }

  /** A number below 10^width pads to exactly `width` digits. */
  lemma PaddedLength(n: nat, width: nat)
    requires 1 <= width && n < Pow10(width)
    ensures |Padded(n, width)| == width
  {
    DecimalLength(n, width);
  }

  /** Two numbers have the same padded rendering only if they are equal. */
  lemma PaddedInjective(a: nat, b: nat, width: nat)
    requires Padded(a, width) == Padded(b, width)
    ensures a == b
  {
    PaddedRoundTrip(a, width);
    PaddedRoundTrip(b, width);
  }

  lemma TwoDigitsValue(s: string)
    requires |s| == 2 && AllDigits(s)
    ensures DigitsValue(s) == 10 * DigitValue(s[0]) + DigitValue(s[1])
  {
    assert s[..1][..0] == [];
    assert DigitsValue(s[..1]) == DigitValue(s[0]);
  }

  lemma DecimalOfTwoDigits(hi: nat, lo: nat)
    requires 1 <= hi < 10 && lo < 10
    ensures Decimal(10 * hi + lo) == [DigitChar(hi), DigitChar(lo)]
  {
    var v := 10 * hi + lo;
    assert v / 10 == hi && v % 10 == lo;
    assert Decimal(v) == Decimal(hi) + [DigitChar(lo)];
  }

  lemma TwoChars(s: string)
    requires |s| == 2
    ensures s == [s[0], s[1]]
  {
  }

  lemma PadOneDigit(c: char)
    ensures PadStart([c], 2, '0') == ['0', c]
  {
  }

  /** Any two-digit string is the zero-padded rendering of its own value. */
  lemma TwoDigitsArePadded(s: string)
    requires |s| == 2 && AllDigits(s)
    ensures Pad2(DigitsValue(s)) == s
  {
    if s[0] == '0' {
      LeadingZeroPadded(s);
    } else {
      NoLeadingZeroPadded(s);
    }
  }

  lemma LeadingZeroPadded(s: string)
    requires |s| == 2 && AllDigits(s) && s[0] == '0'
    ensures Pad2(DigitsValue(s)) == s
  {
    var lo := DigitValue(s[1]);
    assert DigitsValue(s) == lo by { TwoDigitsValue(s); }
    assert Decimal(lo) == [s[1]];
    PadOneDigit(s[1]);
    assert s == ['0', s[1]];
  }

  lemma NoLeadingZeroPadded(s: string)
    requires |s| == 2 && AllDigits(s) && s[0] != '0'
    ensures Pad2(DigitsValue(s)) == s
  {
    var hi, lo := DigitValue(s[0]), DigitValue(s[1]);
    assert DigitsValue(s) == 10 * hi + lo by { TwoDigitsValue(s); }
    DecimalOfTwoDigits(hi, lo);
    TwoChars(s);
  }

  /** `s.split(sep)`: the pieces between separators, empty pieces included. */
  function Split(s: string, sep: char): (parts: seq<string>)
    ensures |parts| >= 1
  {
    if s == [] then [[]]
    else
      var rest := Split(s[1..], sep);
      if s[0] == sep then [[]] + rest else [[s[0]] + rest[0]] + rest[1..]
  }

  lemma {:induction false} SplitNoSeparator(s: string, sep: char)
    requires sep !in s
    ensures Split(s, sep) == [s]
  {
    if s != [] {
      SplitNoSeparator(s[1..], sep);
      assert [s[0]] + s[1..] == s;
    }
  }

  lemma {:induction false} SplitAtFirst(a: string, sep: char, b: string)
    requires sep !in a
    ensures Split(a + [sep] + b, sep) == [a] + Split(b, sep)
  {
    if a == [] {
      assert a + [sep] + b == [sep] + b;
      assert ([sep] + b)[1..] == b;
    } else {
      assert (a + [sep] + b)[1..] == a[1..] + [sep] + b;
      SplitAtFirst(a[1..], sep, b);
      assert [a[0]] + a[1..] == a;
    }
  }

  predicate StartsWith(s: string, prefix: string) { |prefix| <= |s| && s[..|prefix|] == prefix }

  predicate IsUpperLetter(c: char) { 'A' <= c <= 'Z' }

  /** `toUpperCase` on ASCII letters; every other character is left as it is. */
  function UpperAscii(c: char): (u: char)
    ensures 'a' <= c <= 'z' ==> IsUpperLetter(u)
  {
    if 'a' <= c <= 'z' then (c as int - 32) as char else c
  }

  function UpperCase(s: string): (r: string)
    ensures |r| == |s|
  {
    seq(|s|, i requires 0 <= i < |s| => UpperAscii(s[i]))
  }

  /** `replace(/[^A-Z]/g, '')`: keeps only the letters A to Z, in order. */
  function KeepUpperLetters(s: string): (r: string)
    ensures forall i :: 0 <= i < |r| ==> IsUpperLetter(r[i])
    ensures |r| <= |s|
  {
    if s == [] then []
    else if IsUpperLetter(s[0]) then [s[0]] + KeepUpperLetters(s[1..])
    else KeepUpperLetters(s[1..])
  }

  function HexDigit(d: nat): char
    requires d < 16
  {
    "0123456789abcdef"[d]
  }

  /** `n.toString(16)`: lower-case hexadecimal without leading zeros. */
  function Hex(n: nat): (s: string)
    ensures 1 <= |s|
    decreases n
  {
    if n < 16 then [HexDigit(n)] else Hex(n / 16) + [HexDigit(n % 16)]
  }
}
