/** Numbers in text: what strtol reads and what printf writes. */
module Text {
  import Decoder

  // ----- reading -----

  /** 36 for a character that is a digit in no base. */
  function DigitValue(c: char): nat {
    if '0' <= c <= '9' then c as int - '0' as int
    else if 'a' <= c <= 'z' then c as int - 'a' as int + 10
    else if 'A' <= c <= 'Z' then c as int - 'A' as int + 10
    else 36
  }

  /** The digits s starts with, read behind a number acc. */
  function Digits(s: string, base: nat, acc: nat): nat {
    if s == "" || DigitValue(s[0]) >= base then acc
    else Digits(s[1..], base, acc * base + DigitValue(s[0]))
  }

  /** How many decimal digits s starts with. */
  function Run(s: string): (n: nat)
    ensures n <= |s|
  {
    if s == "" || DigitValue(s[0]) >= 10 then 0 else 1 + Run(s[1..])
  }

  /** Base 0 takes the base from the text: 0x in front of a digit for 16, 0 for 8. */
  function Magnitude(s: string, base: nat): nat {
    if base != 0 then Digits(s, base, 0)
    else if |s| > 2 && s[0] == '0' && s[1] in "xX" && DigitValue(s[2]) < 16 then Digits(s[2..], 16, 0)
    else if s != "" && s[0] == '0' then Digits(s, 8, 0)
    else Digits(s, 10, 0)
  }

  /** Saturated to 64 bits. */
  function Clamp(x: int): int {
    if x > 0x7FFF_FFFF_FFFF_FFFF then 0x7FFF_FFFF_FFFF_FFFF
    else if x < -0x8000_0000_0000_0000 then -0x8000_0000_0000_0000
    else x
  }

  /** strtol on text without leading blanks. */
  function Strtol(s: string, base: nat): int {
    if s != "" && s[0] == '-' then Clamp(0 - Magnitude(s[1..], base))
    else if s != "" && s[0] == '+' then Clamp(Magnitude(s[1..], base))
    else Clamp(Magnitude(s, base))
  }

  /** strtol assigned to a 32-bit integer. */
  function ReadInt(s: string, base: nat): int { Decoder.Int32(Strtol(s, base)) }

  // ----- writing -----

  function PrintU(n: nat): (s: string)
    ensures s != ""
  {
    var d := ('0' as int + n % 10) as char;
    if n < 10 then [d] else PrintU(n / 10) + [d]
  }

  function PrintD(n: int): string { if n < 0 then "-" + PrintU(-n) else PrintU(n) }

  // ----- reading undoes writing -----

  lemma {:induction false} DigitsOfPrinted(n: nat, t: string)
    ensures Digits(PrintU(n) + t, 10, 0) == Digits(t, 10, n)
  {
    var d := ('0' as int + n % 10) as char;
    assert ([d] + t)[1..] == t;
    if n < 10 {
      assert PrintU(n) + t == [d] + t;
    } else {
      DigitsOfPrinted(n / 10, [d] + t);
      assert PrintU(n) + t == PrintU(n / 10) + ([d] + t);
    }
  }

  lemma {:induction false} NoLeadingZero(n: nat)
    ensures '0' <= PrintU(n)[0] <= '9' && (n > 0 ==> PrintU(n)[0] != '0')
  {
    if n >= 10 { NoLeadingZero(n / 10); }
  }

  /** A printed number is read back in base 10 and in base 0, whatever its sign. */
  lemma ReadsBack(n: int, base: nat)
    requires base == 0 || base == 10
    requires -0x8000_0000 <= n < 0x8000_0000
    ensures ReadInt(PrintD(n), base) == n
  {
    var m := if n < 0 then -n else n;
    Unsigned(m, base);
    if n < 0 { assert PrintD(n)[1..] == PrintU(m); }
    Decoder.Int32Of(n, n);
  }

  lemma Unsigned(m: nat, base: nat)
    requires base == 0 || base == 10
    ensures Magnitude(PrintU(m), base) == m
    ensures PrintU(m)[0] != '-' && PrintU(m)[0] != '+'
  {
    NoLeadingZero(m);
    DigitsOfPrinted(m, "");
    assert PrintU(m) + "" == PrintU(m);
    if m == 0 {
      assert PrintU(0) == ['0'];
      assert Digits(['0'], 8, 0) == Digits(['0'][1..], 8, 0);
    }
  }
}
